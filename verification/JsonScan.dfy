/** The string-aware brace scanner (inference/parsers.py) and the balanced spans it recognises. */
module JsonScan {
  import opened Options
  import opened Strings

  /** The scanner's three variables. */
  datatype State = State(depth: nat, inString: bool, escape: bool)

  function Outside(depth: nat): State { State(depth, false, false) }

  function Inside(depth: nat): State { State(depth, true, false) }

  /** The state after `c`; a closing brace at depth 0 leaves the depth alone. */
  function Next(st: State, c: char): State {
    if st.inString then
      if st.escape then st.(escape := false)
      else if c == '\\' then st.(escape := true)
      else if c == '"' then st.(inString := false)
      else st
    else if c == '"' then st.(inString := true)
    else if c == '{' then st.(depth := st.depth + 1)
    else if c == '}' && st.depth > 0 then st.(depth := st.depth - 1)
    else st
  }

  predicate Closes(st: State, c: char) {
    !st.inString && c == '}' && st.depth == 1
  }

  /** How many characters the scanner reads up to and including the brace that closes depth 1. */
  function ScanEnd(st: State, s: string): Option<nat>
    decreases |s|
  {
    if s == "" then None
    else if Closes(st, s[0]) then Some(1)
    else match ScanEnd(Next(st, s[0]), s[1..])
      case None => None
      case Some(n) => Some(n + 1)
  }

  function FirstIndex(s: string, c: char): (i: nat)
    ensures i <= |s| && c !in s[..i] && (i < |s| ==> s[i] == c)
    decreases |s|
  {
    if s == "" || s[0] == c then 0
    else
      var k := FirstIndex(s[1..], c);
      assert s[..k + 1] == [s[0]] + s[1..][..k];
      k + 1
  }

  function Extract(text: string): Option<string> {
    var start := FirstIndex(text, '{');
    match ScanEnd(Outside(0), text[start..])
    case None => None
    case Some(n) => if start + n <= |text| then Some(text[start..start + n]) else None
  }

  lemma {:induction false} ScanEndBounds(st: State, s: string)
    ensures ScanEnd(st, s).Some? ==> 1 <= ScanEnd(st, s).value <= |s| && s[ScanEnd(st, s).value - 1] == '}'
    decreases |s|
  {
    if s != "" && !Closes(st, s[0]) {
      ScanEndBounds(Next(st, s[0]), s[1..]);
    }
  }

  // ----- Balanced text, independently of the scanner -----

  datatype StrChar = Plain(c: char) | Escaped(c: char)

  /** Text outside strings: a character that is no quote or brace, a quoted string, or a braced group. */
  datatype Item = Other(c: char) | Quoted(chars: seq<StrChar>) | Braces(body: seq<Item>)

  function Glyph(c: StrChar): string {
    if c.Plain? then [c.c] else ['\\', c.c]
  }

  function RenderChars(cs: seq<StrChar>): string {
    if cs == [] then "" else Glyph(cs[0]) + RenderChars(cs[1..])
  }

  function RenderItem(it: Item): string
    decreases it, 0
  {
    match it
    case Other(c) => [c]
    case Quoted(chars) => "\"" + RenderChars(chars) + "\""
    case Braces(body) => "{" + Render(body) + "}"
  }

  function Render(items: seq<Item>): string
    decreases items, 1
  {
    if items == [] then "" else RenderItem(items[0]) + Render(items[1..])
  }

  predicate CharsOk(cs: seq<StrChar>) {
    forall i | 0 <= i < |cs| :: cs[i].Plain? ==> cs[i].c != '"' && cs[i].c != '\\'
  }

  predicate ItemOk(it: Item)
    decreases it, 0
  {
    match it
    case Other(c) => c != '"' && c != '{' && c != '}'
    case Quoted(chars) => CharsOk(chars)
    case Braces(body) => ItemsOk(body)
  }

  predicate ItemsOk(items: seq<Item>)
    decreases items, 1
  {
    items == [] || (ItemOk(items[0]) && ItemsOk(items[1..]))
  }

  ghost predicate IsBalanced(s: string) {
    exists body :: ItemsOk(body) && s == RenderItem(Braces(body))
  }

  ghost predicate IsBalancedPrefix(s: string, span: string) {
    span <= s && IsBalanced(span)
  }

  // ----- The scanner passes over balanced text without closing -----

  function Shift(k: nat, o: Option<nat>): Option<nat> {
    if o.Some? then Some(k + o.value) else None
  }

  method ExtractFirstJsonObject(text: string) returns (r: Option<string>)
    ensures r == Extract(text)
    ensures match r
            case None => forall span :: !IsBalancedPrefix(text[FirstIndex(text, '{')..], span)
            case Some(found) => forall span :: IsBalancedPrefix(text[FirstIndex(text, '{')..], span) <==> span == found
  {
    ExtractIsTheBalancedSpan(text);
    r := ScanFrom(text, FirstIndex(text, '{'));
  }

  /** The scanner's loop, from the first brace on. */
  method ScanFrom(text: string, start: nat) returns (r: Option<string>)
    requires start <= |text| && (start < |text| ==> text[start] == '{')
    ensures r == match ScanEnd(Outside(0), text[start..])
                 case None => None
                 case Some(n) => if start + n <= |text| then Some(text[start..start + n]) else None
  {
    ghost var whole := ScanEnd(Outside(0), text[start..]);
    var depth, inString, escape := 0, false, false;
    for i := start to |text|
      invariant if i == start then depth == 0 && !inString else depth >= 1
      invariant !inString ==> !escape
      invariant whole == Shift(i - start, ScanEnd(State(depth, inString, escape), text[i..]))
    {
      var c := text[i];
      ghost var st := State(depth, inString, escape);
      ScanStep(st, text, i);
      if inString {
        if escape {
          escape := false;
        } else if c == '\\' {
          escape := true;
        } else if c == '"' {
          inString := false;
        }
      } else if c == '"' {
        inString := true;
      } else if c == '{' {
        depth := depth + 1;
      } else if c == '}' {
        depth := depth - 1;
        if depth == 0 {
          return Some(text[start..i + 1]);
        }
      }
      assert State(depth, inString, escape) == Next(st, c);
      ShiftOnce(i - start, ScanEnd(Next(st, c), text[i + 1..]));
    }
    r := None;
  }

  lemma ShiftOnce(k: nat, o: Option<nat>)
    ensures Shift(k, Shift(1, o)) == Shift(k + 1, o)
  {}

  lemma ScanStep(st: State, text: string, i: nat)
    requires i < |text|
    ensures ScanEnd(st, text[i..]) ==
            if Closes(st, text[i]) then Some(1) else Shift(1, ScanEnd(Next(st, text[i]), text[i + 1..]))
  {
    TakeDrop(text, i, 1);
  }

  /** The state after reading all of `p`, or None when the scanner would stop inside it. */
  function Run(st: State, p: string): Option<State>
    decreases |p|
  {
    if p == "" then Some(st) else if Closes(st, p[0]) then None else Run(Next(st, p[0]), p[1..])
  }

  lemma {:induction false} RunAppend(st: State, p: string, q: string)
    requires Run(st, p).Some?
    ensures Run(st, p + q) == Run(Run(st, p).value, q)
    decreases |p|
  {
    if p == "" {
      assert p + q == q;
    } else {
      RunAppend(Next(st, p[0]), p[1..], q);
      assert (p + q)[1..] == p[1..] + q;
    }
  }

  lemma {:induction false} ScanAfterRun(st: State, p: string, t: string)
    requires Run(st, p).Some?
    ensures ScanEnd(st, p + t) == Shift(|p|, ScanEnd(Run(st, p).value, t))
    decreases |p|
  {
    if p == "" {
      assert p + t == t;
    } else {
      ScanAfterRun(Next(st, p[0]), p[1..], t);
      assert (p + t)[1..] == p[1..] + t;
    }
  }

  lemma RunOne(st: State, c: char)
    requires !Closes(st, c)
    ensures Run(st, [c]) == Some(Next(st, c))
  {
    assert [c][1..] == "";
  }

  lemma CharRuns(d: nat, c: StrChar)
    requires c.Plain? ==> c.c != '"' && c.c != '\\'
    ensures Run(Inside(d), Glyph(c)) == Some(Inside(d))
  {
    if c.Plain? {
      RunOne(Inside(d), c.c);
    } else {
      RunOne(Inside(d), '\\');
      RunOne(State(d, true, true), c.c);
      RunAppend(Inside(d), ['\\'], [c.c]);
      assert Glyph(c) == ['\\'] + [c.c];
    }
  }

  lemma {:induction false} CharsRun(d: nat, cs: seq<StrChar>)
    requires CharsOk(cs)
    ensures Run(Inside(d), RenderChars(cs)) == Some(Inside(d))
  {
    if cs != [] {
      CharRuns(d, cs[0]);
      CharsRun(d, cs[1..]);
      RunAppend(Inside(d), Glyph(cs[0]), RenderChars(cs[1..]));
    }
  }

  /** Text between two single characters that lead into a state and back out of it. */
  lemma Enclosed(st: State, inner: State, open: char, body: string, close: char)
    requires !Closes(st, open) && Next(st, open) == inner
    requires Run(inner, body) == Some(inner) && !Closes(inner, close)
    ensures Run(st, [open] + body + [close]) == Some(Next(inner, close))
    ensures Run(st, [open] + body) == Some(inner)
  {
    RunOne(st, open);
    RunAppend(st, [open], body);
    RunOne(inner, close);
    RunAppend(st, [open] + body, [close]);
  }

  lemma {:induction false} ItemRuns(d: nat, it: Item)
    requires d >= 1 && ItemOk(it)
    ensures Run(Outside(d), RenderItem(it)) == Some(Outside(d))
    decreases it, 0
  {
    match it
    case Other(c) => RunOne(Outside(d), c);
    case Quoted(chars) =>
      CharsRun(d, chars);
      Enclosed(Outside(d), Inside(d), '"', RenderChars(chars), '"');
    case Braces(body) =>
      ItemsRun(d + 1, body);
      Enclosed(Outside(d), Outside(d + 1), '{', Render(body), '}');
  }

  lemma {:induction false} ItemsRun(d: nat, items: seq<Item>)
    requires d >= 1 && ItemsOk(items)
    ensures Run(Outside(d), Render(items)) == Some(Outside(d))
    decreases items, 1
  {
    if items != [] {
      ItemRuns(d, items[0]);
      ItemsRun(d, items[1..]);
      RunAppend(Outside(d), RenderItem(items[0]), Render(items[1..]));
    }
  }

  lemma BalancedSpanIsFound(body: seq<Item>, t: string)
    requires ItemsOk(body)
    ensures ScanEnd(Outside(0), RenderItem(Braces(body)) + t) == Some(|RenderItem(Braces(body))|)
  {
    ItemsRun(1, body);
    RunOne(Outside(0), '{');
    RunAppend(Outside(0), "{", Render(body));
    ScanAfterRun(Outside(0), "{" + Render(body), "}" + t);
    Assoc("{" + Render(body), "}", t);
    ConsTail('}', t);
  }

  // ----- What the scanner returns is balanced -----

  /** The bodies of `|bodies|` nested groups, each followed by its closing brace. */
  function Closing(bodies: seq<seq<Item>>): string {
    if bodies == [] then "" else Render(bodies[0]) + "}" + Closing(bodies[1..])
  }

  predicate AllItemsOk(bodies: seq<seq<Item>>) {
    forall i | 0 <= i < |bodies| :: ItemsOk(bodies[i])
  }

  lemma TakeCons(s: string, k: nat)
    requires k < |s|
    ensures s[..k + 1] == [s[0]] + s[1..][..k] && s[1..][k..] == s[k + 1..]
  {
    TakeDrop(s, 1, k);
  }

  lemma GlyphInFront(c: StrChar, cs: seq<StrChar>, s: string, k: nat)
    requires |Glyph(c)| + k <= |s| && s[..|Glyph(c)|] == Glyph(c) && s[|Glyph(c)|..][..k] == RenderChars(cs) + "\""
    ensures s[..|Glyph(c)| + k] == RenderChars([c] + cs) + "\""
    ensures s[|Glyph(c)|..][k..] == s[|Glyph(c)| + k..]
  {
    TakeDrop(s, |Glyph(c)|, k);
    ConsTail(c, cs);
    Assoc(Glyph(c), RenderChars(cs), "\"");
  }

  /** From inside a string, the first `m` of the `n` characters the scanner reads are the string's rest. */
  ghost predicate IsStringRest(d: nat, s: string, n: nat, chars: seq<StrChar>, m: nat) {
    && CharsOk(chars) && m <= |s| && m <= n && s[..m] == RenderChars(chars) + "\""
    && ScanEnd(Outside(d), s[m..]) == Some(n - m)
  }

  lemma {:induction false} ParseString(d: nat, s: string, n: nat) returns (chars: seq<StrChar>, m: nat)
    requires ScanEnd(Inside(d), s) == Some(n)
    ensures IsStringRest(d, s, n, chars, m)
    decreases |s|
  {
    ScanEndBounds(Inside(d), s);
    if s[0] == '"' {
      chars, m := [], 1;
      StringEnds(d, s, n);
    } else {
      var c := FirstGlyph(d, s, n);
      var rest := s[|Glyph(c)|..];
      var cs, k := ParseString(d, rest, n - |Glyph(c)|);
      chars, m := [c] + cs, |Glyph(c)| + k;
      StringGrows(d, s, n, c, cs, k);
    }
  }

  lemma StringGrows(d: nat, s: string, n: nat, c: StrChar, cs: seq<StrChar>, k: nat)
    requires c.Plain? ==> c.c != '"' && c.c != '\\'
    requires |Glyph(c)| <= n <= |s| && s[..|Glyph(c)|] == Glyph(c)
    requires IsStringRest(d, s[|Glyph(c)|..], n - |Glyph(c)|, cs, k)
    ensures IsStringRest(d, s, n, [c] + cs, |Glyph(c)| + k)
  {
    GlyphInFront(c, cs, s, k);
  }

  lemma StringEnds(d: nat, s: string, n: nat)
    requires ScanEnd(Inside(d), s) == Some(n) && s != "" && s[0] == '"'
    ensures IsStringRest(d, s, n, [], 1)
  {
    assert s[..1] == "" + "\"";
  }

  lemma FirstGlyph(d: nat, s: string, n: nat) returns (c: StrChar)
    requires ScanEnd(Inside(d), s) == Some(n) && 1 <= n <= |s| && s[0] != '"'
    ensures c.Plain? ==> c.c != '"' && c.c != '\\'
    ensures |Glyph(c)| < n && s[..|Glyph(c)|] == Glyph(c)
    ensures ScanEnd(Inside(d), s[|Glyph(c)|..]) == Some(n - |Glyph(c)|)
  {
    if s[0] == '\\' {
      ScanEndBounds(State(d, true, true), s[1..]);
      TakeDrop(s, 1, 1);
      ScanEndBounds(Inside(d), s[2..]);
      c := Escaped(s[1]);
      assert s[..2] == ['\\', s[1]];
    } else {
      ScanEndBounds(Inside(d), s[1..]);
      c := Plain(s[0]);
      assert s[..1] == [s[0]];
    }
  }

  /** Adds an item in front of the innermost body. */
  lemma InFront(it: Item, bodies: seq<seq<Item>>) returns (all: seq<seq<Item>>)
    requires bodies != [] && ItemOk(it) && AllItemsOk(bodies)
    ensures |all| == |bodies| && AllItemsOk(all) && Closing(all) == RenderItem(it) + Closing(bodies)
  {
    var first := [it] + bodies[0];
    ConsTail(it, bodies[0]);
    all := [first] + bodies[1..];
    ConsTail(first, bodies[1..]);
    Assoc4(RenderItem(it), Render(bodies[0]), "}", Closing(bodies[1..]));
    assert forall i | 1 <= i < |all| :: all[i] == bodies[i];
  }

  /** The first `n` characters are the rest of the innermost of `d` open groups, and of those around it. */
  ghost predicate ClosesGroups(d: nat, s: string, n: nat, bodies: seq<seq<Item>>) {
    |bodies| == d && AllItemsOk(bodies) && n <= |s| && s[..n] == Closing(bodies)
  }

  lemma {:induction false} ParseBodies(d: nat, s: string, n: nat) returns (bodies: seq<seq<Item>>)
    requires d >= 1 && ScanEnd(Outside(d), s) == Some(n)
    ensures ClosesGroups(d, s, n, bodies)
    decreases |s|, 1
  {
    ScanEndBounds(Outside(d), s);
    if s[0] == '"' {
      bodies := ParseQuoted(d, s, n);
    } else if s[0] == '{' {
      bodies := ParseOpening(d, s, n);
    } else if s[0] == '}' {
      bodies := ParseClosing(d, s, n);
    } else {
      var bs := ParseBodies(d, s[1..], n - 1);
      bodies := InFront(Other(s[0]), bs);
      TakeCons(s, n - 1);
    }
  }

  lemma {:induction false} ParseQuoted(d: nat, s: string, n: nat) returns (bodies: seq<seq<Item>>)
    requires d >= 1 && ScanEnd(Outside(d), s) == Some(n) && s[0] == '"' && n <= |s|
    ensures ClosesGroups(d, s, n, bodies)
    decreases |s|, 0
  {
    var chars, m := ParseString(d, s[1..], n - 1);
    TakeDrop(s, 1, m);
    var bs := ParseBodies(d, s[m + 1..], n - 1 - m);
    bodies := InFront(Quoted(chars), bs);
    QuotedText(s, n, chars, m);
  }

  lemma QuotedText(s: string, n: nat, chars: seq<StrChar>, m: nat)
    requires m + 1 <= n <= |s| && s[0] == '"' && s[1..][..m] == RenderChars(chars) + "\""
    ensures s[..n] == RenderItem(Quoted(chars)) + s[m + 1..][..n - 1 - m]
  {
    TakeDrop(s, m + 1, n - 1 - m);
    TakeDrop(s, 1, m);
    Assoc("\"", RenderChars(chars), "\"");
    assert s[..1] == "\"";
  }

  lemma {:induction false} ParseOpening(d: nat, s: string, n: nat) returns (bodies: seq<seq<Item>>)
    requires d >= 1 && ScanEnd(Outside(d), s) == Some(n) && s[0] == '{' && n <= |s|
    ensures ClosesGroups(d, s, n, bodies)
    decreases |s|, 0
  {
    var bs := ParseBodies(d + 1, s[1..], n - 1);
    bodies := InFront(Braces(bs[0]), bs[1..]);
    TakeCons(s, n - 1);
    Assoc4("{", Render(bs[0]), "}", Closing(bs[1..]));
  }

  lemma {:induction false} ParseClosing(d: nat, s: string, n: nat) returns (bodies: seq<seq<Item>>)
    requires d >= 1 && ScanEnd(Outside(d), s) == Some(n) && s[0] == '}' && n <= |s|
    ensures ClosesGroups(d, s, n, bodies)
    decreases |s|, 0
  {
    if d == 1 {
      bodies := [[]];
      assert bodies[1..] == [] && s[..1] == "}";
    } else {
      var bs := ParseBodies(d - 1, s[1..], n - 1);
      bodies := [[]] + bs;
      ClosesOneMore(d, s, n, bs);
    }
  }

  lemma ClosesOneMore(d: nat, s: string, n: nat, bs: seq<seq<Item>>)
    requires 1 <= n <= |s| && s[0] == '}' && d >= 1 && ClosesGroups(d - 1, s[1..], n - 1, bs)
    ensures ClosesGroups(d, s, n, [[]] + bs)
  {
    ConsTail([], bs);
    TakeCons(s, n - 1);
    assert "" + "}" + Closing(bs) == "}" + Closing(bs);
    assert forall i | 1 <= i < |bs| + 1 :: ([[]] + bs)[i] == bs[i - 1];
  }

  lemma FoundSpanIsBalanced(s: string)
    requires s != "" && s[0] == '{' && ScanEnd(Outside(0), s).Some?
    ensures ScanEnd(Outside(0), s).value <= |s| && IsBalanced(s[..ScanEnd(Outside(0), s).value])
  {
    var n := ScanEnd(Outside(0), s).value;
    ScanEndBounds(Outside(0), s);
    var bodies := ParseBodies(1, s[1..], n - 1);
    assert bodies == [bodies[0]];
    OneGroupIsBalanced(s, n, bodies[0]);
  }

  lemma OneGroupIsBalanced(s: string, n: nat, body: seq<Item>)
    requires 1 <= n <= |s| && s[0] == '{' && ItemsOk(body) && s[1..][..n - 1] == Closing([body])
    ensures IsBalanced(s[..n])
  {
    TakeCons(s, n - 1);
    ClosingOne(body);
    Assoc("{", Render(body), "}");
    assert s[..n] == RenderItem(Braces(body));
  }

  lemma ClosingOne(body: seq<Item>)
    ensures Closing([body]) == Render(body) + "}"
  {
    assert [body][1..] == [];
    assert Render(body) + "}" + "" == Render(body) + "}";
  }

  /** The scanner returns the one balanced span that starts at the first brace, and None when there is none. */
  lemma ExtractIsTheBalancedSpan(text: string)
    ensures var tail := text[FirstIndex(text, '{')..];
            match Extract(text)
            case None => forall span :: !IsBalancedPrefix(tail, span)
            case Some(r) => forall span :: IsBalancedPrefix(tail, span) <==> span == r
  {
    var tail := text[FirstIndex(text, '{')..];
    forall span | IsBalancedPrefix(tail, span) ensures Extract(text) == Some(span) {
      BalancedPrefixIsExtracted(text, span);
    }
    if Extract(text).Some? {
      ExtractedIsBalanced(text);
    }
  }

  lemma BalancedPrefixIsExtracted(text: string, span: string)
    requires IsBalancedPrefix(text[FirstIndex(text, '{')..], span)
    ensures Extract(text) == Some(span)
  {
    var start := FirstIndex(text, '{');
    var tail := text[start..];
    var body :| ItemsOk(body) && span == RenderItem(Braces(body));
    assert tail == span + tail[|span|..];
    BalancedSpanIsFound(body, tail[|span|..]);
    assert text[start..start + |span|] == span;
  }

  lemma ExtractedIsBalanced(text: string)
    requires Extract(text).Some?
    ensures IsBalancedPrefix(text[FirstIndex(text, '{')..], Extract(text).value)
  {
    var start := FirstIndex(text, '{');
    var tail := text[start..];
    ScanEndBounds(Outside(0), tail);
    assert tail[0] == '{';
    FoundSpanIsBalanced(tail);
    assert text[start..start + |Extract(text).value|] == tail[..|Extract(text).value|];
  }
}
