/** The `text[]` column type: its array-literal printer and the fallback reader. */
module PgTextArray {
  import opened JsonValues
  import opened Text

  // ---- printing ------------------------------------------------------------------------

  predicate NeedsQuoting(tag: string) {
    || |tag| == 0
    || (exists c | c in tag :: c in ",{}\"\\" || IsSpace(c))
    || ToUpper(tag) == "NULL"
  }

  function Escape(tag: string): string {
    ReplaceAll(ReplaceAll(tag, '\\', "\\\\"), '"', "\\\"")
  }

  function Quote(tag: string): string { "\"" + Escape(tag) + "\"" }

  function PrintElement(tag: string): string {
    if NeedsQuoting(tag) then Quote(tag) else tag
  }

  function PrintAll(tags: seq<string>): seq<string> {
    seq(|tags|, i requires 0 <= i < |tags| => PrintElement(tags[i]))
  }

  function Print(tags: seq<string>): string {
    "{" + Join(PrintAll(tags), ",") + "}"
  }

  // ---- reading -------------------------------------------------------------------------

  /** After an opening quote: the element and the text behind its closing quote. */
  function ReadQuoted(s: string): (r: (string, string))
    ensures |r.1| <= |s|
  {
    if s == "" then ("", "")
    else if s[0] == '\\' && |s| > 1 then
      var (element, rest) := ReadQuoted(s[2..]);
      ([s[1]] + element, rest)
    else if s[0] == '"' then ("", s[1..])
    else
      var (element, rest) := ReadQuoted(s[1..]);
      ([s[0]] + element, rest)
  }

  /** The text up to the next comma, and the text from that comma on. */
  function ReadUnquoted(s: string): (r: (string, string))
    ensures s == r.0 + r.1 && ',' !in r.0 && (r.1 == "" || r.1[0] == ',')
  {
    if s == "" || s[0] == ',' then ("", s)
    else
      var (element, rest) := ReadUnquoted(s[1..]);
      ([s[0]] + element, rest)
  }

  function ReadElement(s: string): (r: (string, string))
    requires s != ""
    ensures |r.1| < |s| || (r.1 == s && s[0] == ',')
  {
    if s[0] == '"' then ReadQuoted(s[1..]) else ReadUnquoted(s)
  }

  function SkipComma(s: string): string {
    if s != "" && s[0] == ',' then s[1..] else s
  }

  function ReadElements(s: string): seq<string>
    decreases |s|
  {
    if s == "" then []
    else [ReadElement(s).0] + ReadElements(SkipComma(ReadElement(s).1))
  }

  /** `literal.slice(1, -1)` */
  function Inner(literal: string): string {
    if |literal| < 2 then "" else literal[1..|literal| - 1]
  }

  function Read(literal: string): seq<string> {
    if literal == "{}" then [] else ReadElements(Inner(literal))
  }

  // ---- the type's methods -----------------------------------------------------------------

  method ConvertToDatabaseValue(value: Option<seq<string>>) returns (literal: Option<string>)
    ensures literal == if value.None? then None else Some(Print(value.value))
  {
    if value.None? {
      return None;
    }
    var quotedElements := [];
    for i := 0 to |value.value|
      invariant quotedElements == PrintAll(value.value)[..i]
    {
      var tag := value.value[i];
      quotedElements := quotedElements + [if NeedsQuoting(tag) then "\"" + Escape(tag) + "\"" else tag];
    }
    assert quotedElements == PrintAll(value.value);
    return Some("{" + Join(quotedElements, ",") + "}");
  }

  datatype DatabaseValue = SqlNull | Parsed(elements: seq<string>) | Literal(text: string)

  method ConvertToJSValue(value: DatabaseValue) returns (elements: Option<seq<string>>)
    ensures match value
            case SqlNull => elements == None
            case Parsed(list) => elements == Some(list)
            case Literal(text) => elements == Some(Read(text))
  {
    match value
    case SqlNull => elements := None;
    case Parsed(list) => elements := Some(list);
    case Literal(text) =>
      var list := ParsePgArrayLiteral(text);
      elements := Some(list);
  }

  /** The reader as written; its cursor loop, below, ends on every text, well formed or not. */
  method ParsePgArrayLiteral(literal: string) returns (result: seq<string>)
    ensures result == Read(literal)
  {
    if literal == "{}" {
      return [];
    }
    result := ParseElements(Inner(literal));
  }

  method ParseElements(inner: string) returns (result: seq<string>)
    ensures result == ReadElements(inner)
  {
    result := [];
    var i := 0;
    ghost var rest := inner;
    NoneRead(inner);
    while i < |inner|
      invariant 0 <= i <= |inner| && rest == inner[i..]
      invariant Onto(result, rest) == ReadElements(inner)
      decreases |inner| - i
    {
      OneMore(result, rest);
      var element;
      element, i := ParseElement(inner, i);
      result := result + [element];
      rest := inner[i..];
    }
    AllRead(result);
  }

  lemma {:induction false} NoneRead(s: string)
    ensures Onto([], s) == ReadElements(s)
  {
  }

  lemma {:induction false} AllRead(result: seq<string>)
    ensures Onto(result, "") == result
  {
  }

  function Onto(before: seq<string>, s: string): seq<string> { before + ReadElements(s) }

  lemma {:induction false} OneMore(before: seq<string>, s: string)
    requires s != ""
    ensures Onto(before, s) == Onto(before + [ReadElement(s).0], SkipComma(ReadElement(s).1))
  {
  }

  /** One turn of the loop: a quoted element, or everything up to the next comma, and that comma. */
  method ParseElement(inner: string, start: nat) returns (element: string, i: nat)
    requires start < |inner|
    ensures start < i <= |inner|
    ensures element == ReadElement(inner[start..]).0 && inner[i..] == SkipComma(ReadElement(inner[start..]).1)
  {
    if inner[start] == '"' {
      assert inner[start..][1..] == inner[start + 1..];
      element, i := ParseQuoted(inner, start + 1);
    } else {
      i := IndexOf(inner, ',', start);
      element := inner[start..i];
    }
    ghost var behind := inner[i..];
    assert ReadElement(inner[start..]) == (element, behind);
    if i < |inner| && inner[i] == ',' {
      assert behind[1..] == inner[i + 1..];
      i := i + 1;
    }
  }

  /** The inner loop: from behind an opening quote to behind its closing quote. */
  method ParseQuoted(inner: string, start: nat) returns (element: string, i: nat)
    requires start <= |inner|
    ensures start <= i <= |inner| && (element, inner[i..]) == ReadQuoted(inner[start..])
  {
    element, i := "", start;
    assert "" + ReadQuoted(inner[start..]).0 == ReadQuoted(inner[start..]).0;
    while i < |inner|
      invariant start <= i <= |inner|
      invariant Behind(element, ReadQuoted(inner[i..])) == ReadQuoted(inner[start..])
    {
      QuotedStep(element, inner[i..]);
      if inner[i] == '\\' && i + 1 < |inner| {
        assert inner[i..][2..] == inner[i + 2..];
        element := element + [inner[i + 1]];
        i := i + 2;
      } else if inner[i] == '"' {
        assert inner[i..][1..] == inner[i + 1..];
        i := i + 1;
        return;
      } else {
        assert inner[i..][1..] == inner[i + 1..];
        element := element + [inner[i]];
        i := i + 1;
      }
    }
    assert element + "" == element;
  }

  function Behind(before: string, read: (string, string)): (string, string) { (before + read.0, read.1) }

  lemma {:induction false} QuotedStep(before: string, s: string)
    requires s != ""
    ensures Behind(before, ReadQuoted(s)) ==
            if s[0] == '\\' && |s| > 1 then Behind(before + [s[1]], ReadQuoted(s[2..]))
            else if s[0] == '"' then (before, s[1..])
            else Behind(before + [s[0]], ReadQuoted(s[1..]))
  {
    if s[0] == '\\' && |s| > 1 {
      assert before + ([s[1]] + ReadQuoted(s[2..]).0) == before + [s[1]] + ReadQuoted(s[2..]).0;
    } else if s[0] == '"' {
      assert before + "" == before;
    } else {
      assert before + ([s[0]] + ReadQuoted(s[1..]).0) == before + [s[0]] + ReadQuoted(s[1..]).0;
    }
  }

  /** `indexOf`, with the length of the text standing for "not found". */
  method IndexOf(s: string, c: char, start: nat) returns (end: nat)
    requires start <= |s|
    ensures start <= end <= |s| && c !in s[start..end] && (end == |s| || s[end] == c)
    ensures c == ',' ==> ReadUnquoted(s[start..]) == (s[start..end], s[end..])
  {
    end := start;
    while end < |s| && s[end] != c
      invariant start <= end <= |s|
      invariant c !in s[start..end]
    {
      end := end + 1;
    }
    if c == ',' {
      assert s[start..] == s[start..end] + s[end..];
      UnquotedStops(s[start..end], s[end..]);
    }
  }

  lemma {:induction false} UnquotedStops(element: string, rest: string)
    requires ',' !in element && (rest == "" || rest[0] == ',')
    ensures ReadUnquoted(element + rest) == (element, rest)
  {
    if element != "" {
      assert (element + rest)[1..] == element[1..] + rest;
      assert [element[0]] + element[1..] == element;
      UnquotedStops(element[1..], rest);
    } else {
      assert element + rest == rest;
    }
  }
}
