/** parsePostgresArray and StringArray.Scan: the text form of a PostgreSQL array of strings.

    Section 8.15.6 of the PostgreSQL documentation: elements are listed between braces,
    separated by commas; an element may be quoted, and must be when it is empty or contains
    braces, commas, quotes, backslashes or white space; inside the quotes, quotes and
    backslashes are preceded by a backslash.  The parser knows nothing of these backslashes,
    nor of commas inside quotes. */
module PostgresArray {
  import opened Options

  /** unicode.IsSpace */
  predicate IsSpace(c: char) {
    || '\t' <= c <= '\r' || c == ' ' || c == '\U{85}' || c == '\U{A0}' || c == '\U{1680}'
    || '\U{2000}' <= c <= '\U{200A}' || c == '\U{2028}' || c == '\U{2029}' || c == '\U{202F}'
    || c == '\U{205F}' || c == '\U{3000}'
  }

  predicate IsQuote(c: char) {
    c == '\"'
  }

  function TrimLeft(s: string, cut: char -> bool): string {
    if s != [] && cut(s[0]) then TrimLeft(s[1..], cut) else s
  }

  function TrimRight(s: string, cut: char -> bool): string {
    if s != [] && cut(s[|s| - 1]) then TrimRight(s[..|s| - 1], cut) else s
  }

  /** strings.TrimSpace and strings.Trim */
  function Trim(s: string, cut: char -> bool): string {
    TrimRight(TrimLeft(s, cut), cut)
  }

  /** strings.TrimPrefix(s, "{") and strings.TrimSuffix(s, "}") */
  function TrimBraces(s: string): string {
    var t := if s != [] && s[0] == '{' then s[1..] else s;
    if t != [] && t[|t| - 1] == '}' then t[..|t| - 1] else t
  }

  function Join(parts: seq<string>): string {
    if parts == [] then []
    else if |parts| == 1 then parts[0]
    else Join(parts[..|parts| - 1]) + "," + parts[|parts| - 1]
  }

  /** The parts with t added to the last of them. */
  function AddToLast(parts: seq<string>, t: string): (more: seq<string>)
    requires parts != []
    ensures |more| == |parts|
  {
    parts[..|parts| - 1] + [parts[|parts| - 1] + t]
  }

  /** strings.Split(s, ",") */
  function Split(s: string): (parts: seq<string>)
    ensures parts != [] && forall i :: 0 <= i < |parts| ==> ',' !in parts[i]
  {
    if s == [] then
      [""]
    else
      var n := |s| - 1;
      var parts := Split(s[..n]);
      if s[n] == ',' then parts + [""] else AddToLast(parts, [s[n]])
  }

  /** What is made of one part. */
  function Clean(part: string): string {
    Trim(Trim(part, IsSpace), IsQuote)
  }

  /** The elements found in the parts: those that are not empty. */
  function Elements(parts: seq<string>): seq<string> {
    if parts == [] then
      []
    else
      var last := Clean(parts[|parts| - 1]);
      Elements(parts[..|parts| - 1]) + if last != "" then [last] else []
  }

  function Parsed(s: string): seq<string> {
    var t := Trim(s, IsSpace);
    if t == "{}" || t == "" then [] else Elements(Split(TrimBraces(t)))
  }

  /** parsePostgresArray */
  method ParsePostgresArray(s: string) returns (result: seq<string>)
    ensures result == Parsed(s)
  {
    var t := Trim(s, IsSpace);
    if t == "{}" || t == "" {
      return [];
    }
    if t != [] && t[0] == '{' {
      t := t[1..];
    }
    if t != [] && t[|t| - 1] == '}' {
      t := t[..|t| - 1];
    }
    result := CleanParts(Split(t));
  }

  /** Its loop. */
  method CleanParts(parts: seq<string>) returns (result: seq<string>)
    ensures result == Elements(parts)
  {
    result := [];
    for i := 0 to |parts|
      invariant result == Elements(parts[..i])
    {
      assert parts[..i + 1][..i] == parts[..i];
      var part := Trim(parts[i], IsSpace);
      part := Trim(part, IsQuote);
      if part != "" {
        result := result + [part];
      }
    }
    assert parts[..|parts|] == parts;
  }

  /** Trimming leaves a stretch of the text, cuts only what it should, and all of it. */
  lemma {:induction false} TrimRightFacts(s: string, cut: char -> bool)
    ensures TrimRight(s, cut) <= s
    ensures TrimRight(s, cut) == [] || !cut(TrimRight(s, cut)[|TrimRight(s, cut)| - 1])
    ensures forall i :: |TrimRight(s, cut)| <= i < |s| ==> cut(s[i])
  {
    if s != [] && cut(s[|s| - 1]) {
      TrimRightFacts(s[..|s| - 1], cut);
    }
  }

  lemma {:induction false} TrimLeftFacts(s: string, cut: char -> bool)
    ensures var k := |s| - |TrimLeft(s, cut)|;
      0 <= k <= |s| && TrimLeft(s, cut) == s[k..] && (k < |s| ==> !cut(s[k])) && forall i :: 0 <= i < k ==> cut(s[i])
  {
    if s != [] && cut(s[0]) {
      TrimLeftFacts(s[1..], cut);
    }
  }

  lemma TrimAddsNothing(s: string, cut: char -> bool, c: char)
    requires c in Trim(s, cut)
    ensures c in s
  {
    TrimLeftFacts(s, cut);
    TrimRightFacts(TrimLeft(s, cut), cut);
  }

  lemma {:induction false} ElementsAreClean(parts: seq<string>)
    requires forall i :: 0 <= i < |parts| ==> ',' !in parts[i]
    ensures |Elements(parts)| <= |parts|
    ensures forall i :: 0 <= i < |Elements(parts)| ==> Elements(parts)[i] != "" && ',' !in Elements(parts)[i]
  {
    if parts != [] {
      var last := parts[|parts| - 1];
      ElementsAreClean(parts[..|parts| - 1]);
      if ',' in Clean(last) {
        TrimAddsNothing(Trim(last, IsSpace), IsQuote, ',');
        TrimAddsNothing(last, IsSpace, ',');
      }
    }
  }

  /** Whatever the input, what is parsed has neither empty elements nor elements with commas. */
  lemma ParsedElements(s: string)
    ensures forall x :: x in Parsed(s) ==> x != "" && ',' !in x
  {
    ElementsAreClean(Split(TrimBraces(Trim(s, IsSpace))));
  }

  lemma AddTwice(parts: seq<string>, t: string, c: char)
    requires parts != []
    ensures AddToLast(AddToLast(parts, t), [c]) == AddToLast(parts, t + [c])
  {
    assert parts[|parts| - 1] + t + [c] == parts[|parts| - 1] + (t + [c]);
  }

  lemma {:induction false} SplitAppended(s: string, t: string)
    requires ',' !in t
    ensures Split(s + t) == AddToLast(Split(s), t)
  {
    if t == [] {
      assert s + t == s;
      assert Split(s)[|Split(s)| - 1] + t == Split(s)[|Split(s)| - 1];
    } else {
      var front, c := t[..|t| - 1], t[|t| - 1];
      SplitAppended(s, front);
      assert (s + t)[..|s + t| - 1] == s + front && (s + t)[|s + t| - 1] == c;
      AddTwice(Split(s), front, c);
      assert front + [c] == t;
    }
  }

  /** Splitting undoes joining. */
  lemma {:induction false} SplitJoined(parts: seq<string>)
    requires parts != [] && forall i :: 0 <= i < |parts| ==> ',' !in parts[i]
    ensures Split(Join(parts)) == parts
  {
    var front, last := parts[..|parts| - 1], parts[|parts| - 1];
    if front == [] {
      SplitAppended("", last);
      assert "" + last == last;
    } else {
      SplitJoined(front);
      SplitAtComma(Join(front));
      SplitAppended(Join(front) + ",", last);
      assert "" + last == last;
      assert AddToLast(front + [""], last) == parts;
    }
  }

  lemma SplitAtComma(s: string)
    ensures Split(s + ",") == Split(s) + [""]
  {
    assert (s + ",")[..|s|] == s;
  }

  /** Joining undoes splitting: Split(s) is the one list of comma-free texts that joins to s. */
  lemma {:induction false} JoinSplit(s: string)
    ensures Join(Split(s)) == s
  {
    if s != [] {
      var n := |s| - 1;
      JoinSplit(s[..n]);
      if s[n] == ',' {
        assert (Split(s[..n]) + [""])[..|Split(s[..n])|] == Split(s[..n]);
      } else {
        JoinAdded(Split(s[..n]), [s[n]]);
      }
    }
  }

  lemma JoinAdded(parts: seq<string>, t: string)
    requires parts != []
    ensures Join(AddToLast(parts, t)) == Join(parts) + t
  {
    assert AddToLast(parts, t)[..|parts| - 1] == parts[..|parts| - 1];
  }

  // ---- The PostgreSQL form

  predicate IsSpecial(c: char) {
    c == '\"' || c == '\\'
  }

  predicate NoneSpecial(x: string) {
    '\"' !in x && '\\' !in x
  }

  function Escape(x: string): string {
    if x == [] then
      []
    else
      var c := x[|x| - 1];
      Escape(x[..|x| - 1]) + if IsSpecial(c) then ['\\', c] else [c]
  }

  predicate NeedsNoQuotes(c: char) {
    !IsSpecial(c) && c != '{' && c != '}' && c != ',' && c != ' ' && !('\t' <= c <= '\r')
  }

  /** The word NULL in any case. */
  predicate SpellsNull(text: string) {
    |text| == 4 && text[0] in "nN" && text[1] in "uU" && text[2] in "lL" && text[3] in "lL"
  }

  /** An element as it is written: quoted, or as it is. */
  datatype Written = Quoted(text: string) | Plain(text: string) {
    /** Only a text that needs no quotes may be written without.  White space means the ASCII
        characters here. */
    predicate Valid() {
      Plain? ==> text != "" && !SpellsNull(text) && forall c :: c in text ==> NeedsNoQuotes(c)
    }

    function Form(): string {
      if Plain? then text else "\"" + Escape(text) + "\""
    }
  }

  function Forms(xs: seq<Written>): (forms: seq<string>)
    ensures |forms| == |xs| && forall i :: 0 <= i < |xs| ==> forms[i] == xs[i].Form()
  {
    seq(|xs|, i requires 0 <= i < |xs| => xs[i].Form())
  }

  function Texts(xs: seq<Written>): (texts: seq<string>)
    ensures |texts| == |xs| && forall i :: 0 <= i < |xs| ==> texts[i] == xs[i].text
  {
    seq(|xs|, i requires 0 <= i < |xs| => xs[i].text)
  }

  /** The array in the PostgreSQL form. */
  function Rendered(xs: seq<Written>): string {
    "{" + Join(Forms(xs)) + "}"
  }

  /** The elements that the parser reads back: quoted ones without a comma, quote or
      backslash that are not empty, and plain ones that neither start nor end with a space
      character, which can then only be one outside ASCII. */
  predicate Readable(x: Written) {
    && x.text != ""
    && match x
       case Quoted(text) => ',' !in text && NoneSpecial(text)
       case Plain(text) => !IsSpace(text[0]) && !IsSpace(text[|text| - 1])
  }

  /** Escaping adds a backslash for each special character and nothing else. */
  lemma {:induction false} EscapeFacts(x: string)
    ensures |Escape(x)| >= |x|
    ensures |Escape(x)| == |x| <==> NoneSpecial(x)
    ensures |Escape(x)| == |x| ==> Escape(x) == x
    ensures ',' in Escape(x) <==> ',' in x
    ensures x != [] ==> Escape(x) != [] && Escape(x)[0] != '\"'
  {
    if x != [] {
      var front, c := x[..|x| - 1], x[|x| - 1];
      EscapeFacts(front);
      assert x == front + [c];
    }
  }

  lemma TrimKeeps(s: string, cut: char -> bool)
    requires s != [] && !cut(s[0]) && !cut(s[|s| - 1])
    ensures Trim(s, cut) == s
  {
  }

  lemma TrimBoth(e: string, cut: char -> bool, c: char)
    requires e != [] && cut(c) && !cut(e[0])
    ensures Trim([c] + e + [c], cut) == TrimRight(e, cut)
  {
    var s := [c] + e + [c];
    assert s[0] == c && s[1..] == e + [c];
    assert TrimLeft(e + [c], cut) == e + [c];
    assert (e + [c])[|e|] == c && (e + [c])[..|e|] == e;
  }

  lemma CleanInQuotes(e: string)
    requires e != "" && e[0] != '\"'
    ensures Clean("\"" + e + "\"") == TrimRight(e, IsQuote)
  {
    var q := ['\"'] + e + ['\"'];
    assert "\"" + e + "\"" == q;
    TrimKeeps(q, IsSpace);
    TrimBoth(e, IsQuote, '\"');
  }

  /** What the parser makes of a quoted text: the escaped text, without its final quote if it
      ends in one. */
  lemma CleanQuoted(x: string)
    requires x != ""
    ensures Clean("\"" + Escape(x) + "\"") == if x[|x| - 1] == '\"' then Escape(x[..|x| - 1]) + "\\" else Escape(x)
  {
    EscapeFacts(x);
    CleanInQuotes(Escape(x));
    if x[|x| - 1] == '\"' {
      TrimEscaped(Escape(x[..|x| - 1]));
    }
  }

  lemma TrimEscaped(front: string)
    ensures TrimRight(front + ['\\', '\"'], IsQuote) == front + "\\"
  {
    var e := front + ['\\', '\"'];
    assert e[..|e| - 1] == front + "\\";
  }

  /** A written element is read back as it was exactly when its text is readable. */
  lemma CleanForm(x: Written)
    requires x.Valid() && x.text != "" && ',' !in x.text
    ensures x.Form() != "" && ',' !in x.Form()
    ensures Clean(x.Form()) == x.text <==> Readable(x)
  {
    if x.Plain? {
      CleanPlain(x.text);
    } else {
      EscapeFacts(x.text);
      CleanQuoted(x.text);
      QuotedReadBack(x.text);
    }
  }

  /** A text is trimmed of nothing exactly when there is nothing to trim at its ends. */
  lemma TrimShorter(s: string, cut: char -> bool)
    ensures Trim(s, cut) == s <==> s == "" || (!cut(s[0]) && !cut(s[|s| - 1]))
  {
    if s != "" {
      if cut(s[0]) {
        TrimLeftFacts(s[1..], cut);
        TrimRightFacts(TrimLeft(s, cut), cut);
      } else {
        TrimRightFacts(s, cut);
      }
    }
  }

  lemma CleanPlain(t: string)
    requires Plain(t).Valid()
    ensures Clean(t) == t <==> Readable(Plain(t))
  {
    var u := Trim(t, IsSpace);
    forall c | c in u
      ensures c != '\"'
    {
      TrimAddsNothing(t, IsSpace, c);
    }
    NoQuoteToTrim(u);
    TrimShorter(t, IsSpace);
  }

  lemma NoQuoteToTrim(u: string)
    requires '\"' !in u
    ensures Trim(u, IsQuote) == u
  {
    if u != "" {
      assert u[0] in u && u[|u| - 1] in u;
      TrimKeeps(u, IsQuote);
    }
  }

  lemma QuotedReadBack(t: string)
    requires t != "" && ',' !in t
    ensures (if t[|t| - 1] == '\"' then Escape(t[..|t| - 1]) + "\\" else Escape(t)) == t <==> Readable(Quoted(t))
  {
    EscapeFacts(t);
    if t[|t| - 1] == '\"' {
      var e := Escape(t[..|t| - 1]) + "\\";
      assert e[|e| - 1] == '\\';
      assert t[|t| - 1] in t;
    }
  }

  /** When no part is dropped, the elements are the cleaned parts. */
  lemma {:induction false} NoneDropped(parts: seq<string>)
    requires |Elements(parts)| == |parts| || forall i :: 0 <= i < |parts| ==> Clean(parts[i]) != ""
    ensures |Elements(parts)| == |parts| && forall i :: 0 <= i < |parts| ==> Elements(parts)[i] == Clean(parts[i])
  {
    if parts != [] {
      AtMostParts(parts[..|parts| - 1]);
      NoneDropped(parts[..|parts| - 1]);
    }
  }

  lemma {:induction false} AtMostParts(parts: seq<string>)
    ensures |Elements(parts)| <= |parts|
  {
    if parts != [] {
      AtMostParts(parts[..|parts| - 1]);
    }
  }

  /** The braces come off and the elements are left. */
  lemma ParsedRendered(xs: seq<Written>)
    requires xs != [] && forall i :: 0 <= i < |xs| ==> xs[i].Form() != ""
    ensures Parsed(Rendered(xs)) == Elements(Split(Join(Forms(xs))))
  {
    JoinNonEmpty(Forms(xs));
    BracesComeOff(Join(Forms(xs)));
  }

  lemma BracesComeOff(body: string)
    requires body != ""
    ensures var s := "{" + body + "}"; Trim(s, IsSpace) == s && TrimBraces(s) == body && |s| > 2
  {
    var s := "{" + body + "}";
    TrimKeeps(s, IsSpace);
    assert s[1..] == body + "}";
    assert (body + "}")[..|body|] == body;
  }

  lemma JoinNonEmpty(parts: seq<string>)
    requires parts != [] && forall i :: 0 <= i < |parts| ==> parts[i] != ""
    ensures Join(parts) != ""
  {
  }

  /** Without empty texts and commas, what is read back is the cleaned forms. */
  lemma ReadBack(xs: seq<Written>)
    requires xs != [] && forall i :: 0 <= i < |xs| ==> xs[i].Form() != "" && ',' !in xs[i].Form()
    ensures Parsed(Rendered(xs)) == Elements(Forms(xs))
  {
    ParsedRendered(xs);
    SplitJoined(Forms(xs));
  }

  lemma ElementsReadBack(xs: seq<Written>)
    requires forall i :: 0 <= i < |xs| ==> xs[i].text != "" && (Clean(xs[i].Form()) == xs[i].text <==> Readable(xs[i]))
    ensures Elements(Forms(xs)) == Texts(xs) <==> forall i :: 0 <= i < |xs| ==> Readable(xs[i])
  {
    var forms := Forms(xs);
    if |Elements(forms)| == |forms| || forall i :: 0 <= i < |forms| ==> Clean(forms[i]) != "" {
      NoneDropped(forms);
    }
    if Elements(forms) == Texts(xs) {
      forall i | 0 <= i < |xs|
        ensures Readable(xs[i])
      {
        assert Elements(forms)[i] == Texts(xs)[i];
      }
    }
  }

  /** Round trip, exactly: an array in the PostgreSQL form, each element quoted or, where
      that is allowed, not, is read back as it was if and only if each of its elements is
      readable. */
  lemma RoundTripExactlyWhen(xs: seq<Written>)
    requires forall i :: 0 <= i < |xs| ==> xs[i].Valid()
    ensures Parsed(Rendered(xs)) == Texts(xs) <==> forall i :: 0 <= i < |xs| ==> Readable(xs[i])
  {
    if xs == [] {
      TrimKeeps("{}", IsSpace);
      assert Rendered(xs) == "{}";
    } else if forall i :: 0 <= i < |xs| ==> xs[i].text != "" && ',' !in xs[i].text {
      forall i | 0 <= i < |xs|
        ensures xs[i].Form() != "" && ',' !in xs[i].Form()
        ensures Clean(xs[i].Form()) == xs[i].text <==> Readable(xs[i])
      {
        CleanForm(xs[i]);
      }
      ReadBack(xs);
      ElementsReadBack(xs);
    } else {
      var i :| 0 <= i < |xs| && !(xs[i].text != "" && ',' !in xs[i].text);
      ParsedElements(Rendered(xs));
      assert Texts(xs)[i] == xs[i].text && Texts(xs)[i] in Texts(xs);
    }
  }

  /** The text a"b, quoted as PostgreSQL does, comes back with its backslash. */
  lemma QuoteIsReadWithBackslash()
    ensures Parsed(Rendered([Quoted("a\"b")])) == ["a\\\"b"]
    ensures Parsed(Rendered([Quoted("a\"b")])) != Texts([Quoted("a\"b")])
  {
    var x := "a\"b";
    var xs := [Quoted(x)];
    EscapeOfQuote();
    CleanQuoted(x);
    var forms := Forms(xs);
    EscapeFacts(x);
    assert forms == [xs[0].Form()];
    ReadBack(xs);
    assert forms[..0] == [];
    assert Elements(forms) == [Clean(forms[0])];
    assert Texts(xs)[0] == x;
  }

  lemma EscapeAppended(x: string, c: char)
    ensures Escape(x + [c]) == Escape(x) + if IsSpecial(c) then ['\\', c] else [c]
  {
    assert (x + [c])[..|x|] == x;
  }

  lemma EscapeOfQuote()
    ensures Escape("a\"b") == "a\\\"b"
  {
    EscapeAppended([], 'a');
    EscapeAppended(['a'], '\"');
    EscapeAppended(['a', '\"'], 'b');
    assert "a\"b" == ['a', '\"'] + ['b'] && ['a', '\"'] == ['a'] + ['\"'] && ['a'] == [] + ['a'];
  }

  /** What PostgreSQL reads between the quotes: a backslash is dropped and the character after it
      kept. */
  function Unescape(e: string): string {
    if e == [] then []
    else if e[0] == '\\' && |e| > 1 then [e[1]] + Unescape(e[2..])
    else [e[0]] + Unescape(e[1..])
  }

  /** An escaped text reads back, so the quoted form is a faithful one. */
  lemma {:induction false} EscapedReadsBack(x: string, rest: string)
    ensures Unescape(Escape(x) + rest) == x + Unescape(rest)
  {
    if x == [] {
      assert [] + rest == rest;
    } else {
      var front, c := x[..|x| - 1], x[|x| - 1];
      var tail := if IsSpecial(c) then ['\\', c] else [c];
      EscapedReadsBack(front, tail + rest);
      assert Escape(x) + rest == Escape(front) + (tail + rest);
      assert (tail + rest)[|tail|..] == rest;
      assert front + ([c] + Unescape(rest)) == x + Unescape(rest);
    }
  }

  // ---- StringArray.Scan

  /** What the database driver hands over. */
  datatype Column = Null | Bytes(bytes: string) | Text(text: string) | Other

  class StringArray {
    var elements: seq<string>

    constructor ()
      ensures elements == []
    {
      elements := [];
    }

    /** Scan: bytes are tried as JSON first. */
    method Scan(value: Column, json: string -> Option<seq<string>>) returns (ok: bool)
      modifies this
      ensures ok == !value.Other?
      ensures elements == Scanned(value, json, old(elements))
      ensures value.Null? ==> elements == []
      ensures value.Bytes? && json(value.bytes).Some? ==> elements == json(value.bytes).value
      ensures value.Other? ==> elements == old(elements)
    {
      ok := true;
      match value {
        case Null => elements := [];
        case Bytes(v) =>
          var arr := json(v);
          if arr.Some? {
            elements := arr.value;
          } else {
            elements := ParsePostgresArray(v);
          }
        case Text(v) => elements := ParsePostgresArray(v);
        case Other => ok := false;
      }
    }
  }

  function Scanned(value: Column, json: string -> Option<seq<string>>, before: seq<string>): seq<string> {
    match value
    case Null => []
    case Bytes(v) => if json(v).Some? then json(v).value else Parsed(v)
    case Text(v) => Parsed(v)
    case Other => before
  }

  /** No JSON text that opens with a brace decodes to a list. */
  ghost predicate DecodesNoObject(json: string -> Option<seq<string>>) {
    forall s :: s != "" && s[0] == '{' ==> json(s).None?
  }

  /** A column in the PostgreSQL form is read back alike whether it comes as bytes or as text,
      whatever was there before. */
  lemma ScanRoundTrip(xs: seq<Written>, json: string -> Option<seq<string>>, before: seq<string>, column: Column)
    requires DecodesNoObject(json) && (column == Bytes(Rendered(xs)) || column == Text(Rendered(xs)))
    requires forall i :: 0 <= i < |xs| ==> xs[i].Valid()
    ensures Scanned(column, json, before) == Texts(xs) <==> forall i :: 0 <= i < |xs| ==> Readable(xs[i])
  {
    RoundTripExactlyWhen(xs);
    assert Rendered(xs)[0] == '{';
  }
}
