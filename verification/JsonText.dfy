/**
 JSON texts by RFC 8259, sections 2 and 4 to 7, as concrete syntax trees: white space, escapes and number
 spellings are free, so every text the RFC allows is the print of some tree.
 */
module JsonText {
  import opened JsonScan
  import opened Options

  /** A string token is a row of plain characters and backslash escapes; \uXXXX is an escape and four plain ones. */
  datatype Json =
    | Scalar(text: string)                                // number, true, false or null
    | Str(chars: seq<StrChar>)
    | Arr(elems: seq<Padded>, ws: string)                 // `ws` is used when there are no elements
    | Obj(members: seq<Member>, ws: string)

  datatype Padded = Padded(before: string, value: Json, after: string)

  datatype Member = Member(before: string, key: seq<StrChar>, mid: string, value: Padded)

  predicate IsWs(s: string) {
    forall i | 0 <= i < |s| :: s[i] in {' ', '\t', '\n', '\r'}
  }

  /** Numbers (section 6) are spelled with these characters; the three literals (section 3) are fixed. */
  predicate IsScalar(s: string) {
    || s in {"true", "false", "null"}
    || forall i | 0 <= i < |s| :: '0' <= s[i] <= '9' || s[i] in {'+', '-', '.', 'e', 'E'}
  }

  predicate IsStringToken(cs: seq<StrChar>) {
    forall i | 0 <= i < |cs| ::
      match cs[i]
      case Plain(c) => c >= ' ' && c != '"' && c != '\\'
      case Escaped(c) => c in {'"', '\\', '/', 'b', 'f', 'n', 'r', 't', 'u'}
  }

  predicate JsonOk(v: Json)
    decreases v, 0
  {
    match v
    case Scalar(text) => IsScalar(text)
    case Str(chars) => IsStringToken(chars)
    case Arr(elems, ws) => IsWs(ws) && ElemsOk(elems)
    case Obj(members, ws) => IsWs(ws) && MembersOk(members)
  }

  predicate PaddedOk(p: Padded)
    decreases p, 1
  {
    IsWs(p.before) && JsonOk(p.value) && IsWs(p.after)
  }

  predicate ElemsOk(es: seq<Padded>)
    decreases es, 2
  {
    es == [] || (PaddedOk(es[0]) && ElemsOk(es[1..]))
  }

  predicate MembersOk(ms: seq<Member>)
    decreases ms, 2
  {
    ms == [] || (&& IsWs(ms[0].before) && IsStringToken(ms[0].key) && IsWs(ms[0].mid) && PaddedOk(ms[0].value)
                 && MembersOk(ms[1..]))
  }

  // ----- The printer -----

  function PrintString(cs: seq<StrChar>): string { "\"" + RenderChars(cs) + "\"" }

  function Print(v: Json): string
    decreases v, 0
  {
    match v
    case Scalar(text) => text
    case Str(chars) => PrintString(chars)
    case Arr(elems, ws) => "[" + (if elems == [] then ws else PrintElems(elems)) + "]"
    case Obj(members, ws) => "{" + (if members == [] then ws else PrintMembers(members)) + "}"
  }

  function PrintPadded(p: Padded): string
    decreases p, 1
  {
    p.before + Print(p.value) + p.after
  }

  function PrintElems(es: seq<Padded>): string
    decreases es, 2
  {
    if es == [] then ""
    else PrintPadded(es[0]) + (if |es| == 1 then "" else "," + PrintElems(es[1..]))
  }

  function PrintMember(m: Member): string
    decreases m, 1
  {
    m.before + PrintString(m.key) + m.mid + ":" + PrintPadded(m.value)
  }

  function PrintMembers(ms: seq<Member>): string
    decreases ms, 2
  {
    if ms == [] then ""
    else PrintMember(ms[0]) + (if |ms| == 1 then "" else "," + PrintMembers(ms[1..]))
  }

  // ----- JSON text is balanced text -----

  /** `s` is the rendering of balanced items. */
  ghost predicate Balanced(s: string) {
    exists items :: ItemsOk(items) && Render(items) == s
  }

  lemma {:induction false} RenderAppend(a: seq<Item>, b: seq<Item>)
    requires ItemsOk(a) && ItemsOk(b)
    ensures ItemsOk(a + b) && Render(a + b) == Render(a) + Render(b)
  {
    if a == [] {
      assert a + b == b;
    } else {
      assert (a + b)[1..] == a[1..] + b;
      RenderAppend(a[1..], b);
    }
  }

  lemma BalancedAppend(s: string, t: string)
    requires Balanced(s) && Balanced(t)
    ensures Balanced(s + t)
  {
    var a :| ItemsOk(a) && Render(a) == s;
    var b :| ItemsOk(b) && Render(b) == t;
    RenderAppend(a, b);
  }

  lemma BalancedItem(it: Item)
    requires ItemOk(it)
    ensures Balanced(RenderItem(it))
  {
    assert [it][1..] == [];
    assert Render([it]) == RenderItem(it) + "";
    assert ItemsOk([it]);
  }

  lemma {:induction false} PlainTextIsBalanced(s: string)
    requires forall i | 0 <= i < |s| :: s[i] != '"' && s[i] != '{' && s[i] != '}'
    ensures Balanced(s)
    decreases |s|
  {
    if s == "" {
      assert ItemsOk([]) && Render([]) == s;
    } else {
      PlainTextIsBalanced(s[1..]);
      BalancedItem(Other(s[0]));
      BalancedAppend([s[0]], s[1..]);
      assert [s[0]] + s[1..] == s;
    }
  }

  lemma StringTokenIsBalanced(cs: seq<StrChar>)
    requires IsStringToken(cs)
    ensures Balanced(PrintString(cs))
  {
    BalancedItem(Quoted(cs));
  }

  lemma {:induction false} JsonIsBalanced(v: Json)
    requires JsonOk(v)
    ensures Balanced(Print(v))
    decreases v, 1
  {
    match v
    case Scalar(text) =>
      if !(forall i | 0 <= i < |text| :: '0' <= text[i] <= '9' || text[i] in {'+', '-', '.', 'e', 'E'}) {
        assert text == "true" || text == "false" || text == "null";
      }
      PlainTextIsBalanced(text);
    case Str(chars) => StringTokenIsBalanced(chars);
    case Arr(elems, ws) =>
      var inner := if elems == [] then ws else PrintElems(elems);
      if elems == [] { PlainTextIsBalanced(ws); } else { ElemsAreBalanced(elems); }
      PlainTextIsBalanced("[");
      PlainTextIsBalanced("]");
      BalancedAppend("[", inner);
      BalancedAppend("[" + inner, "]");
    case Obj(members, ws) =>
      var body := ObjectBody(v);
      BalancedItem(Braces(body));
  }

  lemma PaddedIsBalanced(p: Padded)
    requires PaddedOk(p)
    ensures Balanced(PrintPadded(p))
    decreases p, 1
  {
    PlainTextIsBalanced(p.before);
    PlainTextIsBalanced(p.after);
    JsonIsBalanced(p.value);
    BalancedAppend(p.before, Print(p.value));
    BalancedAppend(p.before + Print(p.value), p.after);
  }

  lemma {:induction false} ElemsAreBalanced(es: seq<Padded>)
    requires ElemsOk(es) && es != []
    ensures Balanced(PrintElems(es))
    decreases es, 2
  {
    PaddedIsBalanced(es[0]);
    if |es| == 1 {
      assert PrintElems(es) == PrintPadded(es[0]);
    } else {
      ElemsAreBalanced(es[1..]);
      PlainTextIsBalanced(",");
      BalancedAppend(",", PrintElems(es[1..]));
      BalancedAppend(PrintPadded(es[0]), "," + PrintElems(es[1..]));
    }
  }

  lemma MemberIsBalanced(m: Member)
    requires IsWs(m.before) && IsStringToken(m.key) && IsWs(m.mid) && PaddedOk(m.value)
    ensures Balanced(PrintMember(m))
    decreases m, 1
  {
    PlainTextIsBalanced(m.before);
    StringTokenIsBalanced(m.key);
    PlainTextIsBalanced(m.mid);
    PlainTextIsBalanced(":");
    PaddedIsBalanced(m.value);
    BalancedAppend(m.before, PrintString(m.key));
    BalancedAppend(m.before + PrintString(m.key), m.mid);
    BalancedAppend(m.before + PrintString(m.key) + m.mid, ":");
    BalancedAppend(m.before + PrintString(m.key) + m.mid + ":", PrintPadded(m.value));
  }

  lemma {:induction false} MembersAreBalanced(ms: seq<Member>)
    requires MembersOk(ms) && ms != []
    ensures Balanced(PrintMembers(ms))
    decreases ms, 2
  {
    MemberIsBalanced(ms[0]);
    if |ms| == 1 {
      assert PrintMembers(ms) == PrintMember(ms[0]);
    } else {
      MembersAreBalanced(ms[1..]);
      PlainTextIsBalanced(",");
      BalancedAppend(",", PrintMembers(ms[1..]));
      BalancedAppend(PrintMember(ms[0]), "," + PrintMembers(ms[1..]));
    }
  }

  lemma {:induction false} ObjectBody(v: Json) returns (body: seq<Item>)
    requires v.Obj? && JsonOk(v)
    ensures ItemsOk(body) && Print(v) == RenderItem(Braces(body))
    decreases v, 0
  {
    var inner := if v.members == [] then v.ws else PrintMembers(v.members);
    if v.members == [] { PlainTextIsBalanced(v.ws); } else { MembersAreBalanced(v.members); }
    body :| ItemsOk(body) && Render(body) == inner;
  }

  // ----- The scanner inverts the printer -----

  lemma {:induction false} SkipsNonBraces(prefix: string, rest: string)
    requires '{' !in prefix && rest != "" && rest[0] == '{'
    ensures FirstIndex(prefix + rest, '{') == |prefix|
    decreases |prefix|
  {
    if prefix == "" {
      assert prefix + rest == rest;
    } else {
      assert (prefix + rest)[1..] == prefix[1..] + rest;
      SkipsNonBraces(prefix[1..], rest);
    }
  }

  /** Whatever brace-free text comes before and whatever text comes after, the scanner returns exactly the object. */
  lemma ExtractInvertsPrint(prefix: string, v: Json, suffix: string)
    requires '{' !in prefix && v.Obj? && JsonOk(v)
    ensures Extract(prefix + Print(v) + suffix) == Some(Print(v))
  {
    var body := ObjectBody(v);
    BalancedSpanIsFound(body, suffix);
    assert prefix + Print(v) + suffix == prefix + (Print(v) + suffix);
    SkipsNonBraces(prefix, Print(v) + suffix);
    var text := prefix + Print(v) + suffix;
    assert text[|prefix|..] == Print(v) + suffix;
    assert text[|prefix|..|prefix| + |Print(v)|] == Print(v);
  }
}
