/**
 * The JSON text `serde_json::to_string` produces for a `Vec<String>` (an array of strings)
 * and for a `HashMap<String, String>` (an object of string fields), together with a strict
 * decoder for exactly that compact form, so that "the reply is JSON holding these strings"
 * can be stated and proved.
 */
module Json {
  import opened Wrappers
  import Sequences

  /** The hexadecimal digit serde_json writes in a `\u00XX` escape (lower case). */
  function HexDigit(d: nat): (c: char)
    requires d < 16
  {
    if d < 10 then ('0' as int + d) as char else ('a' as int + d - 10) as char
  }

  /** The value of a hexadecimal digit, either case, as JSON reads it. */
  function HexValue(c: char): (r: Option<nat>)
    ensures r.Some? ==> r.value < 16
  {
    if '0' <= c <= '9' then Some(c as int - '0' as int)
    else if 'a' <= c <= 'f' then Some(c as int - 'a' as int + 10)
    else if 'A' <= c <= 'F' then Some(c as int - 'A' as int + 10)
    else None
  }

  lemma HexValueOfDigit(d: nat)
    requires d < 16
    ensures HexValue(HexDigit(d)) == Some(d)
  {
  }

  /**
   * How serde_json writes one character inside a string: the quote and the backslash are
   * escaped, the five control characters with a short form use it, every other character
   * below U+0020 becomes `\u00XX`, and everything else is copied.
   */
  function Escape(c: char): (e: string)
  {
    if c == '"' then ['\\', '"']
    else if c == '\\' then ['\\', '\\']
    else if c == '\n' then ['\\', 'n']
    else if c == '\r' then ['\\', 'r']
    else if c == '\t' then ['\\', 't']
    else if c as int == 0x08 then ['\\', 'b']
    else if c as int == 0x0C then ['\\', 'f']
    else if (c as int) < 0x20 then ['\\', 'u', '0', '0', HexDigit(c as int / 16), HexDigit(c as int % 16)]
    else [c]
  }

  function EscapeText(s: string): string {
    if s == [] then [] else Escape(s[0]) + EscapeText(s[1..])
  }

  /** A JSON string literal. */
  function Quote(s: string): string {
    "\"" + EscapeText(s) + "\""
  }

  /** `["a","b"]`: serde_json's compact array, items in the order given. */
  function EncodeStringArray(xs: seq<string>): string {
    "[" + JoinItems(xs) + "]"
  }

  function JoinItems(xs: seq<string>): string {
    if xs == [] then "" else Quote(xs[0]) + MoreItems(xs[1..])
  }

  function MoreItems(xs: seq<string>): string {
    if xs == [] then "" else "," + Quote(xs[0]) + MoreItems(xs[1..])
  }

  /** `{"a":"1","b":"2"}`: serde_json's compact object, members in the order given. */
  function EncodeStringObject(es: seq<(string, string)>): string {
    "{" + JoinMembers(es) + "}"
  }

  function Member(e: (string, string)): string {
    Quote(e.0) + ":" + Quote(e.1)
  }

  function JoinMembers(es: seq<(string, string)>): string {
    if es == [] then "" else Member(es[0]) + MoreMembers(es[1..])
  }

  function MoreMembers(es: seq<(string, string)>): string {
    if es == [] then "" else "," + Member(es[0]) + MoreMembers(es[1..])
  }

  // ---------------------------------------------------------------------------------------
  // Object members and the map they denote

  /** No field name occurs twice. */
  predicate KeysDistinct(es: seq<(string, string)>) {
    forall i, j :: 0 <= i < j < |es| ==> es[i].0 != es[j].0
  }

  /** The map a list of members denotes (a later member wins over an earlier one). */
  function PairsMap(es: seq<(string, string)>): map<string, string> {
    if es == [] then map[] else PairsMap(es[..|es| - 1])[es[|es| - 1].0 := es[|es| - 1].1]
  }

  lemma PairsMapAppend(es: seq<(string, string)>, e: (string, string))
    ensures PairsMap(es + [e]) == PairsMap(es)[e.0 := e.1]
  {
    assert (es + [e])[..|es|] == es;
  }

  /** `es` lists every field of `m` exactly once, each with its value, in some order. */
  predicate Enumerates(es: seq<(string, string)>, m: map<string, string>) {
    KeysDistinct(es) && PairsMap(es) == m
  }

  lemma {:induction false} PairsMapKeys(es: seq<(string, string)>)
    ensures PairsMap(es).Keys == set i | 0 <= i < |es| :: es[i].0
  {
    if es != [] {
      var init := es[..|es| - 1];
      PairsMapKeys(init);
      assert forall i :: 0 <= i < |init| ==> init[i] == es[i];
      var lhs := PairsMap(es).Keys;
      var rhs := set i | 0 <= i < |es| :: es[i].0;
      assert lhs == (set i | 0 <= i < |init| :: init[i].0) + {es[|es| - 1].0};
      forall k | k in rhs ensures k in lhs {
        var i :| 0 <= i < |es| && es[i].0 == k;
        if i < |init| {
          assert init[i].0 == k;
        }
      }
    }
  }

  /** An enumeration of a map has one entry per field. */
  lemma {:induction false} EnumeratesSize(es: seq<(string, string)>, m: map<string, string>)
    requires Enumerates(es, m)
    ensures |es| == |m|
  {
    if es != [] {
      var init := es[..|es| - 1];
      var last := es[|es| - 1];
      assert KeysDistinct(init);
      EnumeratesSize(init, PairsMap(init));
      PairsMapKeys(init);
      assert last.0 !in PairsMap(init) by {
        forall i | 0 <= i < |init| ensures init[i].0 != last.0 {
          assert init[i] == es[i];
        }
      }
    }
  }

  // ---------------------------------------------------------------------------------------
  // Decoding

  /** One escape sequence, `s` being the text after a backslash: the character and its length. */
  function EscapeAt(s: string): (r: Option<(char, nat)>)
    ensures r.Some? ==> 1 <= r.value.1 <= |s|
  {
    if s == [] then None
    else if s[0] == '"' then Some(('"', 1))
    else if s[0] == '\\' then Some(('\\', 1))
    else if s[0] == '/' then Some(('/', 1))
    else if s[0] == 'b' then Some((0x08 as char, 1))
    else if s[0] == 'f' then Some((0x0C as char, 1))
    else if s[0] == 'n' then Some(('\n', 1))
    else if s[0] == 'r' then Some(('\r', 1))
    else if s[0] == 't' then Some(('\t', 1))
    else if s[0] == 'u' && |s| >= 5 then
      match (HexValue(s[1]), HexValue(s[2]), HexValue(s[3]), HexValue(s[4]))
      case (Some(a), Some(b), Some(c), Some(d)) =>
        var v := ((a * 16 + b) * 16 + c) * 16 + d;
        if 0xD800 <= v < 0xE000 then None else Some((v as char, 5))
      case _ => None
    else None
  }

  /**
   * The characters of a string literal up to its closing quote, `s` being the text after
   * the opening quote: the decoded text and what follows the closing quote.
   */
  function ParseBody(s: string): (r: Option<(string, string)>)
    ensures r.Some? ==> |r.value.1| < |s|
    decreases |s|
  {
    if s == [] then None
    else if s[0] == '"' then Some(([], s[1..]))
    else if s[0] == '\\' then
      match EscapeAt(s[1..])
      case None => None
      case Some((c, n)) =>
        match ParseBody(s[1 + n..])
        case None => None
        case Some((t, rest)) => Some(([c] + t, rest))
    else if (s[0] as int) < 0x20 then None
    else
      match ParseBody(s[1..])
      case None => None
      case Some((t, rest)) => Some(([s[0]] + t, rest))
  }

  /** A string literal at the start of `s`: its text and what follows it. */
  function ParseString(s: string): (r: Option<(string, string)>)
    ensures r.Some? ==> |r.value.1| < |s|
  {
    if s != [] && s[0] == '"' then ParseBody(s[1..]) else None
  }

  /** The rest of an array after its first item: `,"x"` items then `]`. */
  function ParseMoreItems(s: string): (r: Option<(seq<string>, string)>)
    ensures r.Some? ==> |r.value.1| < |s|
    decreases |s|
  {
    if s == [] then None
    else if s[0] == ']' then Some(([], s[1..]))
    else if s[0] == ',' then
      match ParseString(s[1..])
      case None => None
      case Some((x, rest)) =>
        match ParseMoreItems(rest)
        case None => None
        case Some((xs, rest')) => Some(([x] + xs, rest'))
    else None
  }

  /** A whole text that is a compact JSON array of strings, and nothing more. */
  function DecodeStringArray(s: string): Option<seq<string>> {
    if |s| < 2 || s[0] != '[' then None
    else if s[1] == ']' then (if |s| == 2 then Some([]) else None)
    else
      match ParseString(s[1..])
      case None => None
      case Some((x, rest)) =>
        match ParseMoreItems(rest)
        case None => None
        case Some((xs, rest')) => if rest' == [] then Some([x] + xs) else None
  }

  /** One object member `"k":"v"` at the start of `s`. */
  function ParseMember(s: string): (r: Option<((string, string), string)>)
    ensures r.Some? ==> |r.value.1| < |s|
  {
    match ParseString(s)
    case None => None
    case Some((k, rest)) =>
      if rest != [] && rest[0] == ':' then
        match ParseString(rest[1..])
        case None => None
        case Some((v, rest')) => Some(((k, v), rest'))
      else None
  }

  /** The rest of an object after its first member: `,"k":"v"` members then `}`. */
  function ParseMoreMembers(s: string): (r: Option<(seq<(string, string)>, string)>)
    ensures r.Some? ==> |r.value.1| < |s|
    decreases |s|
  {
    if s == [] then None
    else if s[0] == '}' then Some(([], s[1..]))
    else if s[0] == ',' then
      match ParseMember(s[1..])
      case None => None
      case Some((e, rest)) =>
        match ParseMoreMembers(rest)
        case None => None
        case Some((es, rest')) => Some(([e] + es, rest'))
    else None
  }

  /** A whole text that is a compact JSON object of string members, and nothing more. */
  function DecodeStringObject(s: string): Option<seq<(string, string)>> {
    if |s| < 2 || s[0] != '{' then None
    else if s[1] == '}' then (if |s| == 2 then Some([]) else None)
    else
      match ParseMember(s[1..])
      case None => None
      case Some((e, rest)) =>
        match ParseMoreMembers(rest)
        case None => None
        case Some((es, rest')) => if rest' == [] then Some([e] + es) else None
  }

  // ---------------------------------------------------------------------------------------
  // Round trips

  /** Every escape sequence serde_json writes is read back as the character it stands for. */
  lemma EscapeAtOfEscape(c: char, more: string)
    requires |Escape(c)| > 1
    ensures Escape(c)[0] == '\\'
    ensures EscapeAt(Escape(c)[1..] + more) == Some((c, |Escape(c)| - 1))
  {
    if c != '"' && c != '\\' && c != '\n' && c != '\r' && c != '\t'
       && c as int != 0x08 && c as int != 0x0C
    {
      var hi, lo := c as int / 16, c as int % 16;
      HexValueOfDigit(0);
      HexValueOfDigit(hi);
      HexValueOfDigit(lo);
      var s := Escape(c)[1..] + more;
      assert s[0] == 'u' && s[1] == '0' && s[2] == '0' && s[3] == HexDigit(hi) && s[4] == HexDigit(lo);
    }
  }

  /** One escaped character in front of a body that parses. */
  lemma ParseBodyStep(c: char, tail: string)
    requires ParseBody(tail).Some?
    ensures ParseBody(Escape(c) + tail) == Some(([c] + ParseBody(tail).value.0, ParseBody(tail).value.1))
  {
    var s := Escape(c) + tail;
    if |Escape(c)| > 1 {
      EscapeAtOfEscape(c, tail);
      assert s[1..] == Escape(c)[1..] + tail;
      assert s[1 + (|Escape(c)| - 1)..] == tail;
    } else {
      assert s[0] == c && s[1..] == tail;
    }
  }

  lemma {:induction false} ParseBodyOfEscaped(t: string, rest: string)
    ensures ParseBody(EscapeText(t) + "\"" + rest) == Some((t, rest))
    decreases |t|
  {
    var s := EscapeText(t) + "\"" + rest;
    if t == [] {
      assert s == "\"" + rest;
    } else {
      var tail := EscapeText(t[1..]) + "\"" + rest;
      Sequences.AppendAssoc(Escape(t[0]), EscapeText(t[1..]), "\"");
      Sequences.AppendAssoc(Escape(t[0]), EscapeText(t[1..]) + "\"", rest);
      ParseBodyOfEscaped(t[1..], rest);
      ParseBodyStep(t[0], tail);
      assert [t[0]] + t[1..] == t;
    }
  }

  /** A string literal is read back as the text that was quoted, leaving what follows it. */
  lemma ParseStringOfQuote(t: string, rest: string)
    ensures ParseString(Quote(t) + rest) == Some((t, rest))
  {
    var s := Quote(t) + rest;
    Sequences.AppendAssoc("\"" + EscapeText(t), "\"", rest);
    Sequences.AppendAssoc("\"", EscapeText(t), "\"" + rest);
    Sequences.AppendAssoc(EscapeText(t), "\"", rest);
    assert s[1..] == EscapeText(t) + "\"" + rest;
    ParseBodyOfEscaped(t, rest);
  }

  /** One encoded item in front of the rest of an array that parses. */
  lemma ParseMoreItemsStep(x: string, tail: string)
    requires ParseMoreItems(tail).Some?
    ensures ParseMoreItems("," + (Quote(x) + tail))
         == Some(([x] + ParseMoreItems(tail).value.0, ParseMoreItems(tail).value.1))
  {
    var s := "," + (Quote(x) + tail);
    assert s[0] == ',' && s[1..] == Quote(x) + tail;
    ParseStringOfQuote(x, tail);
  }

  lemma {:induction false} ParseMoreItemsOfEncoding(xs: seq<string>, rest: string)
    ensures ParseMoreItems(MoreItems(xs) + "]" + rest) == Some((xs, rest))
    decreases |xs|
  {
    if xs != [] {
      var tail := MoreItems(xs[1..]) + "]" + rest;
      var lead := "," + Quote(xs[0]);
      Sequences.AppendAssoc(lead, MoreItems(xs[1..]), "]");
      Sequences.AppendAssoc(lead, MoreItems(xs[1..]) + "]", rest);
      Sequences.AppendAssoc(",", Quote(xs[0]), tail);
      ParseMoreItemsOfEncoding(xs[1..], rest);
      ParseMoreItemsStep(xs[0], tail);
      assert [xs[0]] + xs[1..] == xs;
    }
  }

  lemma DecodeArrayStep(x: string, tail: string)
    requires ParseMoreItems(tail).Some? && ParseMoreItems(tail).value.1 == []
    ensures DecodeStringArray("[" + (Quote(x) + tail)) == Some([x] + ParseMoreItems(tail).value.0)
  {
    var s := "[" + (Quote(x) + tail);
    assert s[0] == '[' && s[1] == '"' && s[1..] == Quote(x) + tail;
    ParseStringOfQuote(x, tail);
  }

  /** Decoding the JSON of a list of strings gives back the list, in the same order. */
  lemma ArrayRoundTrip(xs: seq<string>)
    ensures DecodeStringArray(EncodeStringArray(xs)) == Some(xs)
  {
    if xs != [] {
      var tail := MoreItems(xs[1..]) + "]";
      Sequences.AppendAssoc("[", Quote(xs[0]) + MoreItems(xs[1..]), "]");
      Sequences.AppendAssoc(Quote(xs[0]), MoreItems(xs[1..]), "]");
      ParseMoreItemsOfEncoding(xs[1..], "");
      assert tail == MoreItems(xs[1..]) + "]" + "";
      DecodeArrayStep(xs[0], tail);
      assert [xs[0]] + xs[1..] == xs;
    }
  }

  lemma ParseMemberOfEncoding(e: (string, string), rest: string)
    ensures ParseMember(Member(e) + rest) == Some((e, rest))
  {
    var tail := ":" + Quote(e.1) + rest;
    Sequences.AppendAssoc(Quote(e.0) + ":", Quote(e.1), rest);
    Sequences.AppendAssoc(Quote(e.0), ":", Quote(e.1) + rest);
    Sequences.AppendAssoc(":", Quote(e.1), rest);
    ParseStringOfQuote(e.0, tail);
    assert tail[1..] == Quote(e.1) + rest;
    ParseStringOfQuote(e.1, rest);
  }

  /** One encoded member in front of the rest of an object that parses. */
  lemma ParseMoreMembersStep(e: (string, string), tail: string)
    requires ParseMoreMembers(tail).Some?
    ensures ParseMoreMembers("," + (Member(e) + tail))
         == Some(([e] + ParseMoreMembers(tail).value.0, ParseMoreMembers(tail).value.1))
  {
    var s := "," + (Member(e) + tail);
    assert s[0] == ',' && s[1..] == Member(e) + tail;
    ParseMemberOfEncoding(e, tail);
  }

  lemma {:induction false} ParseMoreMembersOfEncoding(es: seq<(string, string)>, rest: string)
    ensures ParseMoreMembers(MoreMembers(es) + "}" + rest) == Some((es, rest))
    decreases |es|
  {
    if es != [] {
      var tail := MoreMembers(es[1..]) + "}" + rest;
      var lead := "," + Member(es[0]);
      Sequences.AppendAssoc(lead, MoreMembers(es[1..]), "}");
      Sequences.AppendAssoc(lead, MoreMembers(es[1..]) + "}", rest);
      Sequences.AppendAssoc(",", Member(es[0]), tail);
      ParseMoreMembersOfEncoding(es[1..], rest);
      ParseMoreMembersStep(es[0], tail);
      assert [es[0]] + es[1..] == es;
    }
  }

  lemma DecodeObjectStep(e: (string, string), tail: string)
    requires ParseMoreMembers(tail).Some? && ParseMoreMembers(tail).value.1 == []
    ensures DecodeStringObject("{" + (Member(e) + tail)) == Some([e] + ParseMoreMembers(tail).value.0)
  {
    var s := "{" + (Member(e) + tail);
    assert s[0] == '{' && s[1] == '"' && s[1..] == Member(e) + tail;
    ParseMemberOfEncoding(e, tail);
  }

  /** Decoding the JSON of a list of members gives back the members, in the same order. */
  lemma ObjectRoundTrip(es: seq<(string, string)>)
    ensures DecodeStringObject(EncodeStringObject(es)) == Some(es)
  {
    if es != [] {
      var tail := MoreMembers(es[1..]) + "}";
      Sequences.AppendAssoc("{", Member(es[0]) + MoreMembers(es[1..]), "}");
      Sequences.AppendAssoc(Member(es[0]), MoreMembers(es[1..]), "}");
      ParseMoreMembersOfEncoding(es[1..], "");
      assert tail == MoreMembers(es[1..]) + "}" + "";
      DecodeObjectStep(es[0], tail);
      assert [es[0]] + es[1..] == es;
    }
  }
}
