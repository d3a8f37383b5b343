/** AskUserQuestion routing: the shared payload sanitizer and the recording of answers. */
module Questions {
  import opened JsonValues
  import opened HostRequests

  // ---- the sanitizer ---------------------------------------------------------------------------

  function Records(items: seq<Json>): seq<Json> {
    if items == [] then []
    else (if items[0].Obj? then [items[0]] else []) + Records(items[1..])
  }

  function SanitizeOption(option: Json): Json
    requires option.Obj?
  {
    Obj(map k | k in option.fields && k in ["label", "description"] && option.fields[k].Str? :: option.fields[k])
  }

  function SanitizeOptions(options: seq<Json>): seq<Json> {
    var records := Records(options);
    AllRecords(options);
    seq(|records|, i requires 0 <= i < |records| => SanitizeOption(records[i]))
  }

  predicate KeepsField(key: string, value: Json) {
    match key
    case "question" => value.Str?
    case "header" => value.Str?
    case "multiSelect" => value.Bool?
    case "options" => value.Arr?
    case _ => false
  }

  function SanitizeQuestion(entry: Json): Json
    requires entry.Obj?
  {
    Obj(map k | k in entry.fields && KeepsField(k, entry.fields[k]) ::
          if entry.fields[k].Arr? then Arr(SanitizeOptions(entry.fields[k].items)) else entry.fields[k])
  }

  function Sanitize(value: Json): seq<Json> {
    if value.Arr? then
      var records := Records(value.items);
      AllRecords(value.items);
      seq(|records|, i requires 0 <= i < |records| => SanitizeQuestion(records[i]))
    else []
  }

  lemma {:induction false} AllRecords(items: seq<Json>)
    ensures forall r | r in Records(items) :: r.Obj?
  {
    if items != [] { AllRecords(items[1..]); }
  }

  lemma {:induction false} RecordsAllKept(items: seq<Json>)
    requires forall x | x in items :: x.Obj?
    ensures Records(items) == items
  {
    if items != [] {
      RecordsAllKept(items[1..]);
      assert [items[0]] + items[1..] == items;
    }
  }

  /** The shape both ends agree on: known fields only, each of its own type. */
  predicate WellTypedOption(option: Json) {
    option.Obj? && forall k | k in option.fields :: k in ["label", "description"] && option.fields[k].Str?
  }

  predicate WellTyped(question: Json) {
    question.Obj? && forall k | k in question.fields ::
      KeepsField(k, question.fields[k]) &&
      (question.fields[k].Arr? ==> forall o | o in question.fields[k].items :: WellTypedOption(o))
  }

  lemma {:induction false} OptionsFixed(options: seq<Json>)
    requires forall o | o in options :: WellTypedOption(o)
    ensures SanitizeOptions(options) == options
  {
    RecordsAllKept(options);
    forall i | 0 <= i < |options| ensures SanitizeOption(options[i]) == options[i] {
      assert options[i] in options;
      assert SanitizeOption(options[i]).fields == options[i].fields;
    }
  }

  lemma {:induction false} QuestionFixed(question: Json)
    requires WellTyped(question)
    ensures SanitizeQuestion(question) == question
  {
    forall k | k in question.fields && question.fields[k].Arr?
      ensures SanitizeOptions(question.fields[k].items) == question.fields[k].items
    {
      OptionsFixed(question.fields[k].items);
    }
    assert SanitizeQuestion(question).fields == question.fields;
  }

  /** Sanitizing yields well-typed questions only, and leaves exactly the well-typed lists alone. */
  lemma {:induction false} SanitizeFixesExactlyWellTyped(questions: seq<Json>, value: Json)
    ensures forall q | q in Sanitize(value) :: WellTyped(q)
    ensures Sanitize(Arr(questions)) == questions <==> forall q | q in questions :: WellTyped(q)
  {
    if forall q | q in questions :: WellTyped(q) {
      RecordsAllKept(questions);
      forall i | 0 <= i < |questions| ensures SanitizeQuestion(questions[i]) == questions[i] {
        assert questions[i] in questions;
        QuestionFixed(questions[i]);
      }
    }
  }

  /** Of an option survive exactly its label and its description, each if it is a string. */
  lemma {:induction false} SanitizedOptionKeeps(option: Json, key: string)
    requires option.Obj?
    ensures Field(SanitizeOption(option), key) ==
            if (key == "label" || key == "description") && StringOf(Field(option, key)).Some? then Field(option, key)
            else None
  {
  }

  /** Of a question survive exactly its known fields, each if it has the right type; its options are sanitized. */
  lemma {:induction false} SanitizedQuestionKeeps(entry: Json, key: string)
    requires entry.Obj?
    ensures
      var kept := Field(SanitizeQuestion(entry), key);
      match Field(entry, key)
      case Some(Str(_)) => kept == if key == "question" || key == "header" then Field(entry, key) else None
      case Some(Bool(_)) => kept == if key == "multiSelect" then Field(entry, key) else None
      case Some(Arr(options)) => kept == if key == "options" then Some(Arr(SanitizeOptions(options))) else None
      case _ => kept == None
  {
    assert |"question"| == 8 && |"header"| == 6 && |"multiSelect"| == 11 && |"options"| == 7;
  }

  lemma {:induction false} RecordsAppend(items: seq<Json>, item: Json)
    ensures Records(items + [item]) == Records(items) + if item.Obj? then [item] else []
  {
    if items != [] {
      assert (items + [item])[1..] == items[1..] + [item];
      RecordsAppend(items[1..], item);
    } else {
      assert ([] + [item])[1..] == [];
    }
  }

  /** Questions and options are sanitized one by one, in order, and whatever is not an object is skipped. */
  lemma {:induction false} SanitizeOneMore(items: seq<Json>, item: Json)
    ensures Sanitize(Arr(items + [item])) == Sanitize(Arr(items)) + if item.Obj? then [SanitizeQuestion(item)] else []
    ensures SanitizeOptions(items + [item]) == SanitizeOptions(items) + if item.Obj? then [SanitizeOption(item)] else []
  {
    RecordsAppend(items, item);
    AllRecords(items);
    AllRecords(items + [item]);
  }

  /** Both ends sanitize, so both index the same list: the second pass changes nothing. */
  lemma {:induction false} SanitizeTwice(value: Json)
    ensures Sanitize(Arr(Sanitize(value))) == Sanitize(value)
  {
    SanitizeFixesExactlyWellTyped(Sanitize(value), value);
  }

  // ---- answers -------------------------------------------------------------------------------------

  datatype QuestionResolution = QuestionResolution(answers: Option<seq<Option<string>>>, deny: Option<bool>)

  /** The resolution a question_response frame carries; an invalid entry stays as a hole. */
  function DecodeResponse(frame: Json): QuestionResolution {
    QuestionResolution(
      match Field(frame, "answers")
      case Some(Arr(items)) => Some(seq(|items|, i requires 0 <= i < |items| => StringOf(Some(items[i]))))
      case _ => None,
      match Field(frame, "deny")
      case Some(Bool(b)) => Some(b)
      case _ => None)
  }

  datatype Decision = Deny(message: string) | Allow(answers: map<string, string>)

  /** `answers[text] = answer` on a plain object: `__proto__` names the prototype, not a key. */
  function Assign(record: map<string, string>, text: string, answer: string): map<string, string> {
    if text == "__proto__" then record else record[text := answer]
  }

  function QuestionText(questions: seq<Json>, i: nat): Option<string>
    requires i < |questions|
  {
    StringOf(Field(questions[i], "question"))
  }

  function AnswerAt(answers: seq<Option<string>>, i: nat): Option<string> {
    if i < |answers| then answers[i] else None
  }

  /** The record built from the first n questions. */
  function Recorded(questions: seq<Json>, answers: seq<Option<string>>, n: nat): map<string, string>
    requires n <= |questions|
  {
    if n == 0 then map[]
    else
      var record := Recorded(questions, answers, n - 1);
      match (QuestionText(questions, n - 1), AnswerAt(answers, n - 1))
      case (Some(text), Some(answer)) => Assign(record, text, answer)
      case _ => record
  }

  /** What canUseTool tells the SDK once the question request settles. */
  function Decide(questions: seq<Json>, outcome: Settlement<QuestionResolution>): Decision {
    match outcome
    case Failed(_) => Deny("The question could not be delivered. Continue with your best judgment.")
    case Resolved(r) =>
      if r.deny == Some(true) || r.answers.None? || r.answers.value == [] then
        Deny("The question was not answered. Continue with your best judgment.")
      else Allow(Recorded(questions, r.answers.value, |questions|))
  }

  method CanUseToolContinues(questions: seq<Json>, outcome: Settlement<QuestionResolution>) returns (decision: Decision)
    ensures decision == Decide(questions, outcome)
  {
    match outcome {
      case Failed(_) =>
        return Deny("The question could not be delivered. Continue with your best judgment.");
      case Resolved(resolved) =>
        if resolved.deny == Some(true) || resolved.answers.None? || |resolved.answers.value| == 0 {
          return Deny("The question was not answered. Continue with your best judgment.");
        }
        var answers: map<string, string> := map[];
        for index := 0 to |questions|
          invariant answers == Recorded(questions, resolved.answers.value, index)
        {
          var answer := AnswerAt(resolved.answers.value, index);
          var text := QuestionText(questions, index);
          if text.Some? && answer.Some? {
            answers := Assign(answers, text.value, answer.value);
          }
        }
        return Allow(answers);
    }
  }

  /** Question i asks `text` and has a usable answer. */
  predicate Answers(questions: seq<Json>, answers: seq<Option<string>>, i: nat, text: string) {
    i < |questions| && QuestionText(questions, i) == Some(text) && AnswerAt(answers, i).Some?
  }

  /** Whatever the payload: a text is recorded exactly if some question with it is answered, and the last one counts. */
  lemma {:induction false} RecordsLastAnswer(questions: seq<Json>, answers: seq<Option<string>>, n: nat, text: string)
    requires n <= |questions|
    ensures
      var record := Recorded(questions, answers, n);
      && (text in record <==> text != "__proto__" && exists i :: 0 <= i < n && Answers(questions, answers, i, text))
      && (forall i | 0 <= i < n && text in record && Answers(questions, answers, i, text) &&
                     (forall j | i < j < n :: !Answers(questions, answers, j, text)) ::
            record[text] == AnswerAt(answers, i).value)
  {
    if n > 0 {
      RecordsLastAnswer(questions, answers, n - 1, text);
      assert Answers(questions, answers, n - 1, text) ==> 0 <= n - 1 < n;
    }
  }

  /** No two of the questions ask the same text. */
  predicate DistinctTexts(questions: seq<Json>) {
    forall i, j | 0 <= i < j < |questions| && QuestionText(questions, i).Some? ::
      QuestionText(questions, i) != QuestionText(questions, j)
  }

  /**
   From payload to record, by index: for a request made from `input` and a response frame
   that allows, the answer recorded for the i-th emitted question is the i-th entry of the
   response when that entry is a string, and no answer is recorded when it is not.
   */
  lemma {:induction false} AnswersByIndex(input: Json, frame: Json, i: nat)
    requires i < |Sanitize(input)| && DistinctTexts(Sanitize(input)) && QuestionText(Sanitize(input), i).Some?
    requires Field(frame, "answers").Some? && Field(frame, "answers").value.Arr?
    requires Field(frame, "answers").value.items != [] && Field(frame, "deny") != Some(Bool(true))
    ensures
      var questions, entries := Sanitize(input), Field(frame, "answers").value.items;
      var text := QuestionText(questions, i).value;
      var decision := Decide(questions, Resolved(DecodeResponse(frame)));
      && decision.Allow?
      && (text in decision.answers <==> text != "__proto__" && i < |entries| && entries[i].Str?)
      && (text in decision.answers ==> decision.answers[text] == entries[i].s)
  {
    var questions, entries := Sanitize(input), Field(frame, "answers").value.items;
    var text := QuestionText(questions, i).value;
    var answers := DecodeResponse(frame).answers.value;
    RecordsLastAnswer(questions, answers, |questions|, text);
    assert forall j: nat | Answers(questions, answers, j, text) :: j == i;
    if i < |entries| && entries[i].Str? {
      assert Answers(questions, answers, i, text);
    }
  }

  /** An answered question whose text is `__proto__` leaves no trace in the record. */
  lemma {:induction false} PrototypeQuestionIsLost()
    ensures
      var questions := [Obj(map["question" := Str("__proto__")])];
      Decide(questions, Resolved(QuestionResolution(Some([Some("yes")]), None))) == Allow(map[])
  {
    var questions := [Obj(map["question" := Str("__proto__")])];
    assert QuestionText(questions, 0) == Some("__proto__");
    assert Recorded(questions, [Some("yes")], 0) == map[];
    assert Recorded(questions, [Some("yes")], 1) == map[];
  }
}
