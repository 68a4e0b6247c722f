/** The cleaning pass over raw model output (inference/parsers.py, `clean_json_response`). */
module JsonClean {
  import opened Options
  import opened Strings
  import opened JsonScan
  import opened JsonText

  /** `s.replace(pat, "")`: non-overlapping occurrences from the left. */
  function RemoveAll(s: string, pat: string): string
    requires pat != ""
    decreases |s|
  {
    if s == "" then ""
    else if pat <= s then RemoveAll(s[|pat|..], pat)
    else [s[0]] + RemoveAll(s[1..], pat)
  }

  function LastIndex(s: string, c: char): (k: Option<nat>)
    ensures k.Some? ==> k.value < |s| && s[k.value] == c
    decreases |s|
  {
    if s == "" then None else if s[|s| - 1] == c then Some(|s| - 1) else LastIndex(s[..|s| - 1], c)
  }

  function Unfenced(raw: string): string {
    Strip(RemoveAll(RemoveAll(raw, "```json"), "```"))
  }

  /** `valid` stands for "json.loads accepts the text". */
  function Clean(valid: string -> bool, raw: string): string {
    Recovered(Unfenced(raw), valid)
  }

  /** The text itself if valid, else its first balanced object, else everything from first to last brace. */
  function Recovered(s: string, valid: string -> bool): string {
    if valid(s) then s
    else match Extract(s)
      case Some(found) => found
      case None =>
        var start, end := FirstIndex(s, '{'), LastIndex(s, '}');
        if start < |s| && end.Some? && end.value > start then s[start..end.value + 1] else s
  }

  // ----- Fence removal leaves no fence, even one made of the pieces -----

  ghost predicate NoFence(s: string) {
    forall i | 0 <= i <= |s| :: !("```" <= s[i..])
  }

  function Ticks(s: string): nat
    decreases |s|
  {
    if s != "" && s[0] == '`' then Ticks(s[1..]) + 1 else 0
  }

  lemma FenceIsThreeTicks(s: string)
    ensures "```" <= s <==> Ticks(s) >= 3
  {
    if Ticks(s) >= 3 {
      assert Ticks(s[1..]) >= 2;
      assert Ticks(s[1..][1..]) >= 1;
      assert s[..3] == "```";
    }
    if "```" <= s {
      assert s[0] == "```"[0] && s[1] == "```"[1] && s[2] == "```"[2];
      assert Ticks(s[1..][1..]) >= 1;
      assert Ticks(s[1..]) >= 2;
    }
  }

  lemma FenceTakesThreeTicks(s: string)
    requires "```" <= s
    ensures Ticks(s) == Ticks(s[3..]) + 3
  {
    assert s[0] == "```"[0] && s[1] == "```"[1] && s[2] == "```"[2];
    assert s[1..][1..] == s[2..] && s[2..][1..] == s[3..];
    assert Ticks(s[2..]) == Ticks(s[3..]) + 1;
    assert Ticks(s[1..]) == Ticks(s[2..]) + 1;
  }

  lemma TicksOfCons(c: char, s: string)
    ensures Ticks([c] + s) == if c == '`' then Ticks(s) + 1 else 0
  {
    assert ([c] + s)[1..] == s;
  }

  /** A run of k backticks keeps k mod 3 of them. */
  lemma {:induction false} TicksAfterRemoval(s: string)
    ensures Ticks(RemoveAll(s, "```")) == Ticks(s) % 3
    decreases |s|
  {
    FenceIsThreeTicks(s);
    if "```" <= s {
      FenceTakesThreeTicks(s);
      TicksAfterRemoval(s[3..]);
    } else if s != "" {
      TicksAfterRemoval(s[1..]);
      TicksOfCons(s[0], RemoveAll(s[1..], "```"));
    }
  }

  lemma {:induction false} RemovalLeavesNoFence(s: string)
    ensures NoFence(RemoveAll(s, "```"))
    decreases |s|
  {
    TicksAfterRemoval(s);
    FenceIsThreeTicks(RemoveAll(s, "```"));
    if s == "" {
    } else if "```" <= s {
      RemovalLeavesNoFence(s[3..]);
    } else {
      RemovalLeavesNoFence(s[1..]);
      var r := RemoveAll(s[1..], "```");
      forall i | 0 <= i <= |r| + 1 ensures !("```" <= ([s[0]] + r)[i..]) {
        if i > 0 {
          assert ([s[0]] + r)[i..] == r[i - 1..];
        } else {
          assert ([s[0]] + r)[0..] == [s[0]] + r;
        }
      }
    }
  }

  lemma NoFenceInside(s: string, a: nat, b: nat)
    requires NoFence(s) && a <= b <= |s|
    ensures NoFence(s[a..b])
  {
    forall i | 0 <= i <= b - a ensures !("```" <= s[a..b][i..]) {
      assert s[a + i..] == s[a..b][i..] + s[b..];
      PrefixOfAppend("```", s[a..b][i..], s[b..]);
    }
  }

  lemma {:induction false} NothingToRemove(s: string, pat: string)
    requires pat != "" && forall i | 0 <= i <= |s| :: !(pat <= s[i..])
    ensures RemoveAll(s, pat) == s
    decreases |s|
  {
    if s != "" {
      assert s[0..] == s;
      forall i | 0 <= i <= |s| - 1 ensures !(pat <= s[1..][i..]) {
        assert s[1..][i..] == s[i + 1..];
      }
      NothingToRemove(s[1..], pat);
    }
  }

  lemma NoFenceIsStable(s: string)
    requires NoFence(s)
    ensures RemoveAll(RemoveAll(s, "```json"), "```") == s
  {
    forall i | 0 <= i <= |s| ensures !("```json" <= s[i..]) {
      PrefixOfPrefix("```", "```json", s[i..]);
    }
    NothingToRemove(s, "```json");
    NothingToRemove(s, "```");
  }

  // ----- Stripping -----

  lemma {:induction false} StripLeftIsSuffix(s: string) returns (k: nat)
    ensures k <= |s| && StripLeft(s) == s[k..]
    ensures StripLeft(s) != "" ==> !IsSpace(StripLeft(s)[0])
    decreases |s|
  {
    if s != "" && IsSpace(s[0]) {
      k := StripLeftIsSuffix(s[1..]);
      TakeDrop(s, 1, k);
      k := k + 1;
    } else {
      k := 0;
      assert s == s[0..];
    }
  }

  lemma {:induction false} StripRightIsPrefix(s: string)
    ensures StripRight(s) <= s
    ensures StripRight(s) != "" ==> !IsSpace(StripRight(s)[|StripRight(s)| - 1])
    decreases |s|
  {
    if s != "" && IsSpace(s[|s| - 1]) {
      StripRightIsPrefix(s[..|s| - 1]);
    }
  }

  lemma StripIsInside(s: string) returns (a: nat, b: nat)
    ensures a <= b <= |s| && Strip(s) == s[a..b] && Strip(Strip(s)) == Strip(s)
  {
    a := StripLeftIsSuffix(s);
    StripRightIsPrefix(StripLeft(s));
    b := a + |Strip(s)|;
    TrimmedIsStripped(StripLeft(s), StripRight(StripLeft(s)));
    assert s[a..][..b - a] == s[a..b];
  }

  lemma TrimmedIsStripped(left: string, both: string)
    requires both <= left && (left != "" ==> !IsSpace(left[0])) && (both != "" ==> !IsSpace(both[|both| - 1]))
    ensures Strip(both) == both
  {
    if both != "" {
      assert both[0] == left[0];
    }
  }

  lemma BracedIsStripped(s: string)
    requires |s| >= 2 && s[0] == '{' && s[|s| - 1] == '}'
    ensures Strip(s) == s
  {}

  // ----- Cleaning twice changes nothing -----

  lemma CleanedIsUnfenced(valid: string -> bool, raw: string)
    ensures Unfenced(Clean(valid, raw)) == Clean(valid, raw)
    ensures Unfenced(Unfenced(raw)) == Unfenced(raw)
  {
    var t := RemoveAll(RemoveAll(raw, "```json"), "```");
    RemovalLeavesNoFence(RemoveAll(raw, "```json"));
    var a, b := StripIsInside(t);
    var s := Unfenced(raw);
    NoFenceInside(t, a, b);
    NoFenceIsStable(s);
    var c := Clean(valid, raw);
    if c != s {
      var i, j := CutOut(s, c, valid);
      NoFenceInside(s, i, j);
      NoFenceIsStable(c);
      BracedIsStripped(c);
    }
  }

  /** Whatever the cleaning cuts out of the text runs from an opening to a closing brace. */
  lemma CutOut(s: string, c: string, valid: string -> bool) returns (i: nat, j: nat)
    requires c == Recovered(s, valid) && c != s
    ensures i <= j <= |s| && c == s[i..j] && |c| >= 2 && c[0] == '{' && c[|c| - 1] == '}'
  {
    i := FirstIndex(s, '{');
    if Extract(s).Some? {
      j := i + |c|;
      ScanEndBounds(Outside(0), s[i..]);
      assert s[i..][|c| - 1] == s[i + |c| - 1];
    } else {
      LastIndexFinds(s, '}');
      j := LastIndex(s, '}').value + 1;
    }
  }

  lemma {:induction false} LastIndexFinds(s: string, c: char)
    ensures match LastIndex(s, c)
            case None => c !in s
            case Some(k) => k < |s| && s[k] == c && c !in s[k + 1..]
    decreases |s|
  {
    if s != "" && s[|s| - 1] != c {
      var t := s[..|s| - 1];
      LastIndexFinds(t, c);
      assert s == t + [s[|s| - 1]];
      if LastIndex(t, c).Some? {
        var k := LastIndex(t, c).value;
        assert s[k + 1..] == t[k + 1..] + [s[|s| - 1]];
      }
    }
  }

  lemma ExtractOfExtract(s: string)
    requires Extract(s).Some?
    ensures Extract(Extract(s).value) == Extract(s)
  {
    var r := Extract(s).value;
    ExtractedIsBalanced(s);
    BalancedStartsWithBrace(r);
    assert r[0..] == r;
    BalancedPrefixIsExtracted(r, r);
  }

  lemma BalancedStartsWithBrace(r: string)
    requires IsBalanced(r)
    ensures r != "" && r[0] == '{' && FirstIndex(r, '{') == 0
  {
    var body :| ItemsOk(body) && r == RenderItem(Braces(body));
    assert r == "{" + Render(body) + "}";
    assert r[0] == '{';
  }

  lemma NoBalancedPart(s: string, k: nat)
    requires Extract(s).None? && FirstIndex(s, '{') < k <= |s|
    ensures Extract(s[FirstIndex(s, '{')..k]).None?
  {
    var start := FirstIndex(s, '{');
    SplitTail(s, start, k);
    if Extract(s[start..k]).Some? {
      PartIsExtracted(s, s[start..k], s[k..], Extract(s[start..k]).value);
    }
  }

  /** What is extracted from a front part of the tail is extracted from the whole. */
  lemma PartIsExtracted(s: string, front: string, back: string, r: string)
    requires s[FirstIndex(s, '{')..] == front + back && front != "" && front[0] == '{' && Extract(front) == Some(r)
    ensures Extract(s) == Some(r)
  {
    ExtractedFromBrace(front, r);
    PrefixOfAppend(r, front, back);
    BalancedPrefixIsExtracted(s, r);
  }

  lemma ExtractedFromBrace(c: string, r: string)
    requires c != "" && c[0] == '{' && Extract(c) == Some(r)
    ensures r <= c && IsBalanced(r)
  {
    ExtractedIsBalanced(c);
    assert FirstIndex(c, '{') == 0;
    assert c[0..] == c;
  }

  /** A second pass over a text that was cut out finds the same text again. */
  lemma CutOutIsKept(s: string, c: string, valid: string -> bool)
    requires c == Recovered(s, valid) && c != s
    ensures Recovered(c, valid) == c
  {
    if Extract(s).Some? {
      ExtractOfExtract(s);
    } else {
      var start, end := FirstIndex(s, '{'), LastIndex(s, '}').value;
      NoBalancedPart(s, end + 1);
      WholeSpanIsKept(c, valid);
    }
  }

  lemma WholeSpanIsKept(c: string, valid: string -> bool)
    requires |c| >= 2 && c[0] == '{' && c[|c| - 1] == '}' && Extract(c).None?
    ensures Recovered(c, valid) == c
  {
    assert FirstIndex(c, '{') == 0 && LastIndex(c, '}') == Some(|c| - 1);
    assert c[0..|c|] == c;
  }

  /** The cleaning pass is idempotent on every text, for every notion of validity. */
  lemma CleanIsIdempotent(valid: string -> bool, raw: string)
    ensures Clean(valid, Clean(valid, raw)) == Clean(valid, raw)
  {
    CleanedIsUnfenced(valid, raw);
    if Clean(valid, raw) != Unfenced(raw) {
      CutOutIsKept(Unfenced(raw), Clean(valid, raw), valid);
    }
  }

  // ----- Cleaning recovers a printed object -----

  lemma {:induction false} RemovalKeepsTickFree(s: string, rest: string, pat: string)
    requires pat != "" && pat[0] == '`' && '`' !in s
    ensures RemoveAll(s + rest, pat) == s + RemoveAll(rest, pat)
    decreases |s|
  {
    if s == "" {
      assert s + rest == rest;
    } else {
      DropOfAppend(s, rest, 1);
      RemovalKeepsTickFree(s[1..], rest, pat);
      assert s[0] != '`';
      Assoc([s[0]], s[1..], RemoveAll(rest, pat));
      assert s == [s[0]] + s[1..];
    }
  }

  /** No fence reaches across a brace, so removal works on both sides of it separately. */
  lemma {:induction false} RemovalStopsAtBrace(a: string, rest: string, pat: string)
    requires pat != "" && '{' !in pat && rest != "" && rest[0] == '{'
    ensures RemoveAll(a + rest, pat) == RemoveAll(a, pat) + RemoveAll(rest, pat)
    decreases |a|
  {
    if a == "" {
      assert a + rest == rest;
    } else {
      PrefixStopsAtBrace(a, rest, pat);
      var k := if pat <= a then |pat| else 1;
      DropOfAppend(a, rest, k);
      RemovalStopsAtBrace(a[k..], rest, pat);
      Assoc([a[0]], RemoveAll(a[1..], pat), RemoveAll(rest, pat));
    }
  }

  lemma PrefixStopsAtBrace(a: string, rest: string, pat: string)
    requires pat != "" && '{' !in pat && rest != "" && rest[0] == '{'
    ensures pat <= a + rest <==> pat <= a
  {
    PrefixOfAppend(pat, a, rest);
    if pat <= a + rest && |pat| > |a| {
      BraceInPrefix(a, rest, pat);
    }
  }

  lemma BraceInPrefix(a: string, rest: string, pat: string)
    requires rest != "" && rest[0] == '{' && pat <= a + rest && |pat| > |a|
    ensures '{' in pat
  {
    assert pat[|a|] == (a + rest)[|a|];
  }

  lemma {:induction false} StripLeftStops(p: string, rest: string)
    requires rest != "" && !IsSpace(rest[0])
    ensures StripLeft(p + rest) == StripLeft(p) + rest
    decreases |p|
  {
    if p == "" {
      assert p + rest == rest;
    } else {
      assert (p + rest)[1..] == p[1..] + rest;
      StripLeftStops(p[1..], rest);
    }
  }

  lemma {:induction false} StripRightStops(front: string, q: string)
    requires front != "" && !IsSpace(front[|front| - 1])
    ensures StripRight(front + q) == front + StripRight(q)
    decreases |q|
  {
    if q == "" {
      assert front + q == front;
    } else {
      assert (front + q)[..|front + q| - 1] == front + q[..|q| - 1];
      StripRightStops(front, q[..|q| - 1]);
    }
  }

  lemma ObjectEnds(v: Json)
    requires v.Obj? && JsonOk(v)
    ensures var d := Print(v); |d| >= 2 && d[0] == '{' && d[|d| - 1] == '}'
  {}

  function Unfence(s: string): string { RemoveAll(RemoveAll(s, "```json"), "```") }

  lemma {:induction false} RemovalAddsNothing(s: string, pat: string, c: char)
    requires pat != "" && c !in s
    ensures c !in RemoveAll(s, pat)
    decreases |s|
  {
    if s == "" {
    } else if pat <= s {
      RemovalAddsNothing(s[|pat|..], pat, c);
    } else {
      RemovalAddsNothing(s[1..], pat, c);
    }
  }

  lemma FencesAround(p: string, d: string, q: string)
    requires d != "" && d[0] == '{' && '`' !in d
    ensures Unfence(p + d + q) == Unfence(p) + (d + Unfence(q))
  {
    var q1 := RemoveAll(q, "```json");
    assert p + d + q == p + (d + q);
    RemovalStopsAtBrace(p, d + q, "```json");
    RemovalKeepsTickFree(d, q, "```json");
    RemovalStopsAtBrace(RemoveAll(p, "```json"), d + q1, "```");
    RemovalKeepsTickFree(d, q1, "```");
  }

  /** A printed object inside prose and fences survives fence removal and stripping in one piece. */
  lemma UnfencedAround(p: string, v: Json, q: string)
    requires v.Obj? && JsonOk(v) && '`' !in Print(v)
    ensures Unfenced(p + Print(v) + q) == StripLeft(Unfence(p)) + Print(v) + StripRight(Unfence(q))
  {
    ObjectEnds(v);
    FencesAround(p, Print(v), q);
    StripAround(Unfence(p), Print(v), Unfence(q));
  }

  /** Stripping stops at the braces of what stands in the middle. */
  lemma StripAround(p: string, d: string, q: string)
    requires d != "" && !IsSpace(d[0]) && !IsSpace(d[|d| - 1])
    ensures Strip(p + (d + q)) == StripLeft(p) + d + StripRight(q)
  {
    StripLeftStops(p, d + q);
    Assoc(StripLeft(p), d, q);
    StripRightStops(StripLeft(p) + d, q);
  }

  /**
   For every brace-free text before it and every text after it, the cleaning pass returns exactly the printed
   object, unless the whole unfenced text is itself accepted as valid.
   */
  lemma CleanRecoversObject(valid: string -> bool, p: string, v: Json, q: string)
    requires v.Obj? && JsonOk(v) && '`' !in Print(v) && '{' !in p
    ensures Clean(valid, p + Print(v) + q) ==
            if valid(Unfenced(p + Print(v) + q)) then Unfenced(p + Print(v) + q) else Print(v)
  {
    UnfencedAround(p, v, q);
    RemovalAddsNothing(p, "```json", '{');
    RemovalAddsNothing(RemoveAll(p, "```json"), "```", '{');
    var k := StripLeftIsSuffix(Unfence(p));
    ExtractInvertsPrint(StripLeft(Unfence(p)), v, StripRight(Unfence(q)));
  }

  predicate AllSpace(s: string) {
    forall i | 0 <= i < |s| :: IsSpace(s[i])
  }

  lemma {:induction false} SpaceVanishes(s: string)
    requires AllSpace(s)
    ensures StripLeft(s) == "" && StripRight(s) == ""
    ensures Unfence(s) == s && Unfence("```json" + s) == s && Unfence(s + "```") == s
  {
    StripSpace(s);
    RemovalKeepsTickFree(s, "", "```json");
    RemovalKeepsTickFree(s, "", "```");
    assert s + "" == s;
    assert ("```json" + s)[7..] == s;
    RemovalKeepsTickFree(s, "```", "```json");
    assert RemoveAll("```", "```json") == "```" by { NoJsonFence(); }
    RemovalKeepsTickFree(s, "```", "```");
    assert "```"[3..] == "";
    assert RemoveAll("```", "```") == "";
  }

  lemma NoJsonFence()
    ensures RemoveAll("```", "```json") == "```"
  {
    assert "```"[1..] == "``" && "``"[1..] == "`" && "`"[1..] == "";
    assert RemoveAll("`", "```json") == "`";
    assert RemoveAll("``", "```json") == "``";
  }

  lemma {:induction false} StripSpace(s: string)
    requires AllSpace(s)
    ensures StripLeft(s) == "" && StripRight(s) == "" && '`' !in s
    decreases |s|
  {
    if s != "" {
      StripSpace(s[1..]);
      StripSpace(s[..|s| - 1]);
      assert s == [s[0]] + s[1..];
    }
  }

  lemma NoBraceInOpening(ws: string)
    requires AllSpace(ws)
    ensures '{' !in "```json" + ws
  {
    forall c | c in "```json" + ws ensures c != '{' {
      assert c in "```json" || c in ws;
    }
  }

  /** A printed object in a ```json fence is recovered whatever counts as valid. */
  lemma CleanOpensFence(valid: string -> bool, ws1: string, v: Json, ws2: string)
    requires v.Obj? && JsonOk(v) && '`' !in Print(v) && AllSpace(ws1) && AllSpace(ws2)
    ensures Clean(valid, "```json" + ws1 + Print(v) + (ws2 + "```")) == Print(v)
  {
    var p, q := "```json" + ws1, ws2 + "```";
    UnfencedAround(p, v, q);
    SpaceVanishes(ws1);
    SpaceVanishes(ws2);
    assert "" + Print(v) + "" == Print(v);
    NoBraceInOpening(ws1);
    CleanRecoversObject(valid, p, v, q);
  }
}
