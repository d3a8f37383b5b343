/** What is printed reads back, here and in PostgreSQL. */
module PgRoundTrip {
  import opened JsonValues
  import opened Text
  import opened PgTextArray

  // ---- the escape ------------------------------------------------------------------------

  /** A backslash in front of every backslash and every double quote, in one pass. */
  function EscapeOnce(s: string): string {
    if s == "" then ""
    else (if s[0] == '\\' || s[0] == '"' then ['\\', s[0]] else [s[0]]) + EscapeOnce(s[1..])
  }

  lemma {:induction false} ReplaceAllSplits(a: string, b: string, c: char, text: string)
    ensures ReplaceAll(a + b, c, text) == ReplaceAll(a, c, text) + ReplaceAll(b, c, text)
  {
    if a == "" {
      assert a + b == b;
    } else {
      assert (a + b)[1..] == a[1..] + b;
      ReplaceAllSplits(a[1..], b, c, text);
    }
  }

  /** Escaping backslashes first and quotes second never escapes an escape. */
  lemma {:induction false} EscapesAgree(s: string)
    ensures Escape(s) == EscapeOnce(s)
  {
    if s != "" {
      var first := if s[0] == '\\' then "\\\\" else [s[0]];
      var tail := ReplaceAll(s[1..], '\\', "\\\\");
      ReplaceAllSplits(first, tail, '"', "\\\"");
      assert first[1..] == if s[0] == '\\' then "\\" else "";
      assert "\\"[1..] == "";
      EscapesAgree(s[1..]);
    }
  }

  // ---- quoting ------------------------------------------------------------------------------

  predicate IsPlain(c: char) {
    '0' <= c <= '9' || 'a' <= c <= 'z' || 'A' <= c <= 'Z' || c == '-' || c == '_' || c == '.' || c == '/' || c == ':'
  }

  /** A word of plain characters is printed as it is, unless it spells NULL. */
  lemma {:induction false} PlainIsBare(tag: string)
    requires tag != "" && (forall c | c in tag :: IsPlain(c)) && ToUpper(tag) != "NULL"
    ensures PrintElement(tag) == tag
  {
    forall c | c in tag ensures !IsSpace(c) && c !in ",{}\"\\" {
      assert IsPlain(c);
    }
  }

  /** The empty text, any spelling of NULL, and whatever holds a delimiter or white space is quoted. */
  lemma {:induction false} AmbiguousIsQuoted(tag: string, c: char)
    requires tag == "" || ToUpper(tag) == "NULL" || (c in tag && (c in [',', '{', '}', '"', '\\'] || IsSpace(c)))
    ensures PrintElement(tag) == Quote(tag)
  {
  }

  // ---- the type's own reader -----------------------------------------------------------------

  lemma {:induction false} QuotedReads(element: string, rest: string)
    ensures ReadQuoted(EscapeOnce(element) + "\"" + rest) == (element, rest)
  {
    var s := EscapeOnce(element) + "\"" + rest;
    if element == "" {
      assert s[1..] == rest;
    } else {
      var tail := EscapeOnce(element[1..]) + "\"" + rest;
      var head := if element[0] == '\\' || element[0] == '"' then ['\\', element[0]] else [element[0]];
      QuotedReads(element[1..], rest);
      assert [element[0]] + element[1..] == element;
      assert s == head + tail;
      assert s[|head|..] == tail;
    }
  }

  /** An element's text: quoted and escaped, or bare where bare text is unambiguous. */
  predicate Denotes(text: string, element: string) {
    text == Quote(element) || (text == element != "" && element[0] != '"' && ',' !in element)
  }

  predicate AllDenote(texts: seq<string>, elements: seq<string>) {
    |texts| == |elements| && forall i | 0 <= i < |texts| :: Denotes(texts[i], elements[i])
  }

  lemma {:induction false} ElementReads(text: string, element: string, rest: string)
    requires Denotes(text, element) && (rest == "" || rest[0] == ',')
    ensures text != "" && ReadElement(text + rest) == (element, rest)
  {
    if text == Quote(element) {
      EscapesAgree(element);
      assert (text + rest)[1..] == EscapeOnce(element) + "\"" + rest;
      QuotedReads(element, rest);
    } else {
      UnquotedStops(element, rest);
    }
  }

  lemma {:induction false} JoinReads(texts: seq<string>, elements: seq<string>)
    requires AllDenote(texts, elements)
    ensures ReadElements(Join(texts, ",")) == elements
  {
    if |texts| == 1 {
      ElementReads(texts[0], elements[0], "");
      assert texts[0] + "" == texts[0];
      assert ReadElements(texts[0]) == [elements[0]] + ReadElements("");
    } else if |texts| > 1 {
      var rest := "," + Join(texts[1..], ",");
      assert Join(texts, ",") == texts[0] + rest;
      ElementReads(texts[0], elements[0], rest);
      assert SkipComma(rest) == Join(texts[1..], ",");
      JoinReads(texts[1..], elements[1..]);
      assert [elements[0]] + elements[1..] == elements;
    }
  }

  /** Any literal whose elements are quoted, or bare where that is unambiguous, is read right. */
  lemma {:induction false} LiteralReads(texts: seq<string>, elements: seq<string>)
    requires AllDenote(texts, elements)
    ensures Read("{" + Join(texts, ",") + "}") == elements
  {
    var literal := "{" + Join(texts, ",") + "}";
    assert Inner(literal) == Join(texts, ",");
    JoinReads(texts, elements);
    if literal == "{}" {
      assert |Join(texts, ",")| == 0;
    }
  }

  /** convertToJSValue undoes convertToDatabaseValue on every list of strings. */
  lemma {:induction false} OwnRoundTrip(tags: seq<string>)
    ensures Read(Print(tags)) == tags
  {
    forall i | 0 <= i < |tags| ensures Denotes(PrintAll(tags)[i], tags[i]) {
      if !NeedsQuoting(tags[i]) { assert tags[i][0] in tags[i]; }
    }
    LiteralReads(PrintAll(tags), tags);
  }

  // ---- PostgreSQL's array input and output ------------------------------------------------------

  predicate IsPgSpace(c: char) { c as int == 32 || 9 <= c as int <= 13 }

  function SkipSpace(s: string): (r: string)
    ensures |r| <= |s|
  {
    if s != "" && IsPgSpace(s[0]) then SkipSpace(s[1..]) else s
  }

  /** A character of a bare item, and whether a backslash protects it. */
  type Mark = (char, bool)

  function DropTrailingSpace(item: seq<Mark>): seq<Mark> {
    if item != [] && IsPgSpace(item[|item| - 1].0) && !item[|item| - 1].1 then DropTrailingSpace(item[..|item| - 1])
    else item
  }

  function Characters(item: seq<Mark>): string {
    seq(|item|, i requires 0 <= i < |item| => item[i].0)
  }

  /** A bare item up to the next delimiter; braces and quotes must be protected. */
  function PgBare(s: string): (r: Option<(seq<Mark>, string)>)
    ensures r.Some? ==> |r.value.1| <= |s|
  {
    if s == "" || s[0] == ',' then Some(([], s))
    else if s[0] in "{}\"" then None
    else if s[0] == '\\' then
      if |s| == 1 then None
      else match PgBare(s[2..])
           case None => None
           case Some((item, rest)) => Some(([(s[1], true)] + item, rest))
    else match PgBare(s[1..])
         case None => None
         case Some((item, rest)) => Some(([(s[0], false)] + item, rest))
  }

  function PgQuoted(s: string): (r: Option<(string, string)>)
    ensures r.Some? ==> |r.value.1| < |s|
  {
    if s == "" then None
    else if s[0] == '"' then Some(("", s[1..]))
    else if s[0] == '\\' then
      if |s| == 1 then None
      else match PgQuoted(s[2..])
           case None => None
           case Some((item, rest)) => Some(([s[1]] + item, rest))
    else match PgQuoted(s[1..])
         case None => None
         case Some((item, rest)) => Some(([s[0]] + item, rest))
  }

  /** One item: its value (None is SQL NULL) and the text behind it. */
  function PgItem(text: string): (r: Option<(Option<string>, string)>)
    ensures r.Some? ==> |r.value.1| <= |text|
  {
    var s := SkipSpace(text);
    if s != "" && s[0] == '"' then
      match PgQuoted(s[1..])
      case None => None
      case Some((item, rest)) => Some((Some(item), SkipSpace(rest)))
    else
      match PgBare(s)
      case None => None
      case Some((marked, rest)) =>
        var item := DropTrailingSpace(marked);
        if item == [] then None
        else if ToUpper(Characters(item)) == "NULL" && forall m | m in item :: !m.1 then Some((None, rest))
        else Some((Some(Characters(item)), rest))
  }

  function PgItems(s: string): Option<seq<Option<string>>>
    decreases |s|
  {
    match PgItem(s)
    case None => None
    case Some((item, rest)) =>
      if rest == "" then Some([item])
      else if rest[0] != ',' then None
      else match PgItems(rest[1..])
           case None => None
           case Some(items) => Some([item] + items)
  }

  /** One-dimensional array input. */
  function PgRead(literal: string): Option<seq<Option<string>>> {
    if |literal| < 2 || literal[0] != '{' || literal[|literal| - 1] != '}' then None
    else
      var inner := literal[1..|literal| - 1];
      if SkipSpace(inner) == "" then Some([]) else PgItems(inner)
  }

  lemma {:induction false} PgQuotedReads(element: string, rest: string)
    ensures PgQuoted(EscapeOnce(element) + "\"" + rest) == Some((element, rest))
  {
    var s := EscapeOnce(element) + "\"" + rest;
    if element == "" {
      assert s[1..] == rest;
    } else {
      PgQuotedReads(element[1..], rest);
      assert [element[0]] + element[1..] == element;
      if element[0] == '\\' || element[0] == '"' {
        assert s[2..] == EscapeOnce(element[1..]) + "\"" + rest;
      } else {
        assert s[1..] == EscapeOnce(element[1..]) + "\"" + rest;
      }
    }
  }

  function Unmarked(s: string): seq<Mark> { seq(|s|, i requires 0 <= i < |s| => (s[i], false)) }

  /** Text without delimiters, braces, quotes, backslashes. */
  predicate Plain(s: string) { forall c | c in s :: c !in ",{}\"\\" }

  lemma {:induction false} PgBareReads(element: string, rest: string)
    requires Plain(element) && (rest == "" || rest[0] == ',')
    ensures PgBare(element + rest) == Some((Unmarked(element), rest))
  {
    if element == "" {
      assert element + rest == rest;
    } else {
      assert element[0] in element;
      assert (element + rest)[1..] == element[1..] + rest;
      PgBareReads(element[1..], rest);
      assert [(element[0], false)] + Unmarked(element[1..]) == Unmarked(element);
    }
  }

  lemma {:induction false} PgElementReads(element: string, rest: string)
    requires rest == "" || rest[0] == ','
    ensures PrintElement(element) != "" && PgItem(PrintElement(element) + rest) == Some((Some(element), rest))
  {
    var text := PrintElement(element);
    assert SkipSpace(rest) == rest;
    if NeedsQuoting(element) {
      EscapesAgree(element);
      assert (text + rest)[1..] == EscapeOnce(element) + "\"" + rest;
      PgQuotedReads(element, rest);
    } else {
      assert element[0] in element && element[|element| - 1] in element;
      assert forall c | c in element :: c !in ",{}\"\\" && !IsSpace(c) && !IsPgSpace(c);
      PgBareReads(element, rest);
      assert (text + rest)[0] == element[0];
      assert Characters(Unmarked(element)) == element;
    }
  }

  function Present(tags: seq<string>): seq<Option<string>> {
    seq(|tags|, i requires 0 <= i < |tags| => Some(tags[i]))
  }

  lemma {:induction false} PgJoinReads(tags: seq<string>)
    requires tags != []
    ensures PgItems(Join(PrintAll(tags), ",")) == Some(Present(tags))
  {
    var texts := PrintAll(tags);
    if |tags| == 1 {
      PgElementReads(tags[0], "");
      assert texts[0] + "" == texts[0];
      assert Present(tags) == [Some(tags[0])];
    } else {
      var rest := "," + Join(texts[1..], ",");
      assert Join(texts, ",") == texts[0] + rest;
      PgElementReads(tags[0], rest);
      assert texts[1..] == PrintAll(tags[1..]);
      assert rest[1..] == Join(texts[1..], ",");
      PgJoinReads(tags[1..]);
      assert [Some(tags[0])] + Present(tags[1..]) == Present(tags);
    }
  }

  /** PostgreSQL stores exactly the strings given: no NULL, no lost white space, no split. */
  lemma {:induction false} PgRoundTrip(tags: seq<string>)
    ensures PgRead(Print(tags)) == Some(Present(tags))
  {
    assert Print(tags)[1..|Print(tags)| - 1] == Join(PrintAll(tags), ",");
    if tags != [] {
      PgJoinReads(tags);
      if SkipSpace(Join(PrintAll(tags), ",")) == "" {
      }
    } else {
      assert PrintAll(tags) == [] && Present(tags) == [];
    }
  }

  /** PostgreSQL's own output rule, with None for SQL NULL. */
  function PgPrintElement(element: Option<string>): string {
    match element
    case None => "NULL"
    case Some(s) =>
      if s == "" || (exists c | c in s :: c in ",{}\"\\" || IsPgSpace(c)) || ToUpper(s) == "NULL" then Quote(s) else s
  }

  function PgPrint(elements: seq<Option<string>>): string {
    "{" + Join(seq(|elements|, i requires 0 <= i < |elements| => PgPrintElement(elements[i])), ",") + "}"
  }

  function NullAsWord(element: Option<string>): string {
    if element.None? then "NULL" else element.value
  }

  /** The fallback reader understands every array PostgreSQL prints; NULL becomes the word. */
  lemma {:induction false} ReadsServerOutput(elements: seq<Option<string>>)
    ensures Read(PgPrint(elements)) == seq(|elements|, i requires 0 <= i < |elements| => NullAsWord(elements[i]))
  {
    var texts := seq(|elements|, i requires 0 <= i < |elements| => PgPrintElement(elements[i]));
    var words := seq(|elements|, i requires 0 <= i < |elements| => NullAsWord(elements[i]));
    forall i | 0 <= i < |elements| ensures Denotes(texts[i], words[i]) {
      if texts[i] == words[i] { assert words[i][0] in words[i]; }
    }
    LiteralReads(texts, words);
  }
}
