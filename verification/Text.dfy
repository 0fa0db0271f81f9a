/** The regular-expression replacements the string utilities are built from, and what each leaves. */
module Text {
  ghost predicate Only(s: string, p: char -> bool) {
    forall i :: 0 <= i < |s| ==> p(s[i])
  }

  /** No two `c` next to each other. */
  ghost predicate NoDouble(s: string, c: char) {
    forall i :: 0 <= i < |s| - 1 && s[i] == c ==> s[i + 1] != c
  }

  function DropWhile(s: string, p: char -> bool): (rest: string)
    ensures |rest| <= |s| && rest == s[|s| - |rest|..]
    ensures s != [] && p(s[0]) ==> |rest| < |s|
    ensures rest != [] ==> !p(rest[0])
  {
    if s == [] || !p(s[0]) then s else DropWhile(s[1..], p)
  }

  /** Replaces every character `p` holds of. */
  function ReplaceEach(s: string, p: char -> bool, c: char): (r: string)
    ensures |r| == |s|
    ensures forall i :: 0 <= i < |s| ==> r[i] == if p(s[i]) then c else s[i]
  {
    if s == [] then [] else [if p(s[0]) then c else s[0]] + ReplaceEach(s[1..], p, c)
  }

  /** Replaces every longest run of characters `p` holds of by one `c`. */
  function ReplaceRuns(s: string, p: char -> bool, c: char): string
    decreases |s|
  {
    if s == [] then []
    else if p(s[0]) then [c] + ReplaceRuns(DropWhile(s, p), p, c)
    else [s[0]] + ReplaceRuns(s[1..], p, c)
  }

  /** Removes every character `p` holds of. */
  function RemoveEach(s: string, p: char -> bool): (r: string)
    ensures (forall i :: 0 <= i < |s| ==> !p(s[i])) ==> r == s
  {
    if s == [] then []
    else if p(s[0]) then RemoveEach(s[1..], p)
    else [s[0]] + RemoveEach(s[1..], p)
  }

  function TrimLeft(s: string, c: char): (r: string)
    ensures |r| <= |s| && r == s[|s| - |r|..]
    ensures r != [] ==> r[0] != c
    ensures s == [] || s[0] != c ==> r == s
  {
    if s == [] || s[0] != c then s else TrimLeft(s[1..], c)
  }

  function TrimRight(s: string, c: char): (r: string)
    ensures |r| <= |s| && r == s[..|r|]
    ensures r != [] ==> r[|r| - 1] != c
    ensures s == [] || s[|s| - 1] != c ==> r == s
  {
    if s == [] || s[|s| - 1] != c then s else TrimRight(s[..|s| - 1], c)
  }

  function Trim(s: string, c: char): string {
    TrimRight(TrimLeft(s, c), c)
  }

  function Slice(s: string, n: nat): (r: string)
    ensures |r| <= n && |r| <= |s| && r == s[..|r|]
    ensures |s| <= n ==> r == s
  {
    if |s| <= n then s else s[..n]
  }

  // ----- What replacing leaves -----

  /** What is left after replacing runs: `c`, and the characters `p` does not hold of. */
  lemma {:induction false} ReplaceRunsWithin(s: string, p: char -> bool, c: char, within: char -> bool)
    requires within(c) && forall i :: 0 <= i < |s| && !p(s[i]) ==> within(s[i])
    ensures Only(ReplaceRuns(s, p, c), within)
    decreases |s|
  {
    if s == [] {
    } else if p(s[0]) {
      var rest := DropWhile(s, p);
      assert forall i :: 0 <= i < |rest| ==> rest[i] == s[|s| - |rest| + i];
      ReplaceRunsWithin(rest, p, c, within);
    } else {
      ReplaceRunsWithin(s[1..], p, c, within);
    }
  }

  /** Nothing to replace: nothing changes. */
  lemma {:induction false} ReplaceRunsNone(s: string, p: char -> bool, c: char)
    requires forall i :: 0 <= i < |s| ==> !p(s[i])
    ensures ReplaceRuns(s, p, c) == s
    decreases |s|
  {
    if s != [] {
      assert !p(s[0]);
      ReplaceRunsNone(s[1..], p, c);
    }
  }

  /** One `c` for every run leaves no two `c` together when `p` holds of `c`. */
  lemma {:induction false} ReplaceRunsNoDouble(s: string, p: char -> bool, c: char)
    requires p(c)
    ensures NoDouble(ReplaceRuns(s, p, c), c)
    ensures s != [] ==> ReplaceRuns(s, p, c) != [] && ReplaceRuns(s, p, c)[0] == if p(s[0]) then c else s[0]
    decreases |s|
  {
    if s != [] {
      ReplaceRunsNoDouble(if p(s[0]) then DropWhile(s, p) else s[1..], p, c);
    }
  }

  /** Runs that are single characters `c` already stay as they are. */
  lemma {:induction false} ReplaceRunsSingles(s: string, p: char -> bool, c: char)
    requires NoDouble(s, c) && forall i :: 0 <= i < |s| ==> (p(s[i]) <==> s[i] == c)
    ensures ReplaceRuns(s, p, c) == s
    decreases |s|
  {
    if s == [] {
    } else if p(s[0]) {
      assert DropWhile(s, p) == s[1..] by {
        if |s| > 1 { assert s[1] != c && (p(s[1]) <==> s[1] == c); }
      }
      ReplaceRunsSingles(s[1..], p, c);
    } else {
      ReplaceRunsSingles(s[1..], p, c);
    }
  }

  lemma SubstringKeeps(s: string, from: nat, to: nat, p: char -> bool, c: char)
    requires from <= to <= |s|
    ensures Only(s, p) ==> Only(s[from..to], p)
    ensures NoDouble(s, c) ==> NoDouble(s[from..to], c)
  {
  }

  /** Trimming keeps what holds of every character. */
  lemma TrimKeeps(s: string, c: char, p: char -> bool)
    ensures Only(s, p) ==> Only(Trim(s, c), p)
    ensures NoDouble(s, c) ==> NoDouble(Trim(s, c), c)
  {
    var left := TrimLeft(s, c);
    SubstringKeeps(s, |s| - |left|, |s|, p, c);
    SubstringKeeps(left, 0, |Trim(s, c)|, p, c);
  }

  /** Trimming leaves no `c` at either end, and changes nothing where there is none. */
  lemma TrimEnds(s: string, c: char)
    ensures var trimmed := Trim(s, c);
      trimmed != [] ==> trimmed[0] != c && trimmed[|trimmed| - 1] != c
    ensures s == [] || (s[0] != c && s[|s| - 1] != c) ==> Trim(s, c) == s
  {
  }

  lemma SliceKeeps(s: string, n: nat, p: char -> bool, c: char)
    ensures Only(s, p) ==> Only(Slice(s, n), p)
    ensures NoDouble(s, c) ==> NoDouble(Slice(s, n), c)
    ensures Slice(s, n) != [] ==> s != [] && Slice(s, n)[0] == s[0]
  {
    SubstringKeeps(s, 0, |Slice(s, n)|, p, c);
  }

  lemma {:induction false} ReplaceRunsShortens(s: string, p: char -> bool, c: char)
    ensures |ReplaceRuns(s, p, c)| <= |s|
    decreases |s|
  {
    if s != [] { ReplaceRunsShortens(if p(s[0]) then DropWhile(s, p) else s[1..], p, c); }
  }

  // ----- What replacing keeps -----

  lemma {:induction false} RemoveAppend(a: string, b: string, p: char -> bool)
    ensures RemoveEach(a + b, p) == RemoveEach(a, p) + RemoveEach(b, p)
  {
    if a == [] {
      assert a + b == b;
    } else {
      assert (a + b)[1..] == a[1..] + b;
      RemoveAppend(a[1..], b, p);
    }
  }

  lemma {:induction false} RemoveTwice(s: string, first: char -> bool, second: char -> bool)
    requires forall x :: first(x) ==> second(x)
    ensures RemoveEach(RemoveEach(s, first), second) == RemoveEach(s, second)
  {
    if s != [] {
      RemoveTwice(s[1..], first, second);
      RemoveAppend([s[0]], RemoveEach(s[1..], first), second);
    }
  }

  /** Replacing runs keeps the characters that are not `lost`, in order. */
  lemma {:induction false} ReplaceRunsKeeps(s: string, p: char -> bool, c: char, lost: char -> bool)
    requires lost(c) && forall x :: p(x) ==> lost(x)
    ensures RemoveEach(ReplaceRuns(s, p, c), lost) == RemoveEach(s, lost)
    decreases |s|
  {
    if s == [] {
    } else if p(s[0]) {
      var rest := DropWhile(s, p);
      ReplaceRunsKeeps(rest, p, c, lost);
      RemoveAppend([c], ReplaceRuns(rest, p, c), lost);
      DropWhileKeeps(s, p, lost);
    } else {
      ReplaceRunsKeeps(s[1..], p, c, lost);
      RemoveAppend([s[0]], ReplaceRuns(s[1..], p, c), lost);
    }
  }

  lemma {:induction false} DropWhileKeeps(s: string, p: char -> bool, lost: char -> bool)
    requires forall x :: p(x) ==> lost(x)
    ensures RemoveEach(DropWhile(s, p), lost) == RemoveEach(s, lost)
  {
    if s != [] && p(s[0]) { DropWhileKeeps(s[1..], p, lost); }
  }

  lemma {:induction false} TrimLeftKeeps(s: string, c: char, lost: char -> bool)
    requires lost(c)
    ensures RemoveEach(TrimLeft(s, c), lost) == RemoveEach(s, lost)
  {
    if s != [] && s[0] == c { TrimLeftKeeps(s[1..], c, lost); }
  }

  lemma {:induction false} TrimRightKeeps(s: string, c: char, lost: char -> bool)
    requires lost(c)
    ensures RemoveEach(TrimRight(s, c), lost) == RemoveEach(s, lost)
    decreases |s|
  {
    if s != [] && s[|s| - 1] == c {
      TrimRightKeeps(s[..|s| - 1], c, lost);
      assert s == s[..|s| - 1] + [c];
      RemoveAppend(s[..|s| - 1], [c], lost);
    }
  }

  /** Cutting keeps a prefix of what there was. */
  lemma SliceKeepsPrefix(s: string, n: nat, lost: char -> bool)
    ensures RemoveEach(Slice(s, n), lost) <= RemoveEach(s, lost)
  {
    var cut := Slice(s, n);
    assert s == cut + s[|cut|..];
    RemoveAppend(cut, s[|cut|..], lost);
  }
}
