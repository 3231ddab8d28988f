/** String operations of Go's `strings` package that the logger relies on:
    `Index`, `Contains` and `Split`. Each element of a `string` stands for
    one byte of the Go string. */
module Text {

  datatype Option<T> = None | Some(value: T)

  /** `sub` occurs in `s` starting at position `i`. */
  predicate OccursAt(s: string, sub: string, i: int)
  {
    0 <= i && i + |sub| <= |s| && s[i..i + |sub|] == sub
  }

  /** The first occurrence of `sub` in `s` at or after position `k`. */
  function IndexFrom(s: string, sub: string, k: nat): (r: Option<nat>)
    decreases |s| - k
    ensures r.Some? ==> k <= r.value && r.value + |sub| <= |s|
  {
    if k + |sub| > |s| then None
    else if s[k..k + |sub|] == sub then Some(k)
    else IndexFrom(s, sub, k + 1)
  }

  /** The search finds the first occurrence at or after `k`, and reports none
      only when there is none. */
  lemma {:induction false} IndexFromFindsFirst(s: string, sub: string, k: nat)
    decreases |s| - k
    ensures IndexFrom(s, sub, k).Some? ==> OccursAt(s, sub, IndexFrom(s, sub, k).value)
    ensures IndexFrom(s, sub, k).Some? ==>
      forall j :: k <= j < IndexFrom(s, sub, k).value ==> !OccursAt(s, sub, j)
    ensures IndexFrom(s, sub, k).None? ==> forall j :: k <= j ==> !OccursAt(s, sub, j)
  {
    if k + |sub| <= |s| && s[k..k + |sub|] != sub {
      IndexFromFindsFirst(s, sub, k + 1);
    }
  }

  /** strings.Index: the first position at which `sub` occurs in `s`. */
  function IndexOf(s: string, sub: string): Option<nat>
  {
    IndexFrom(s, sub, 0)
  }

  /** strings.Contains. */
  predicate Contains(s: string, sub: string)
  {
    IndexOf(s, sub).Some?
  }

  /** Any occurrence makes `Contains` true. */
  lemma {:induction false} OccurrenceContains(s: string, sub: string, i: int)
    requires OccursAt(s, sub, i)
    ensures Contains(s, sub)
  {
    IndexFromFindsFirst(s, sub, 0);
  }

  /** `sub` occurs inside `a + sub + b`. */
  lemma {:induction false} ContainsMiddle(a: string, sub: string, b: string)
    ensures Contains(a + sub + b, sub)
  {
    assert (a + sub + b)[|a|..|a| + |sub|] == sub;
    OccurrenceContains(a + sub + b, sub, |a|);
  }

  /** strings.Split with an empty separator: one element per byte. */
  function Explode(s: string): (r: seq<string>)
    ensures |r| == |s|
    ensures forall i :: 0 <= i < |r| ==> r[i] == [s[i]]
  {
    seq(|s|, i requires 0 <= i < |s| => [s[i]])
  }

  /** strings.Split: the pieces of `s` between non-overlapping occurrences
      of `sep`, scanning from the left; an empty separator splits into bytes. */
  function Split(s: string, sep: string): (r: seq<string>)
    ensures sep != [] ==> |r| >= 1
  {
    if sep == [] then Explode(s) else Fields(s, sep)
  }

  /** Split with a non-empty separator. */
  function Fields(s: string, sep: string): (r: seq<string>)
    requires sep != []
    decreases |s|
    ensures |r| >= 1
  {
    match IndexOf(s, sep)
    case None => [s]
    case Some(i) => [s[..i]] + Fields(s[i + |sep|..], sep)
  }

  /** One step of Split at the first occurrence `i` of the separator. */
  lemma {:induction false} SplitAtFirst(s: string, sep: string, i: nat)
    requires sep != [] && IndexOf(s, sep) == Some(i)
    ensures Fields(s, sep) == [s[..i]] + Fields(s[i + |sep|..], sep)
  {
    assert IndexOf(s, sep).value == i;
  }

  /** A string without the separator splits into itself. */
  lemma {:induction false} SplitWhole(s: string, sep: string)
    requires sep != [] && IndexOf(s, sep) == None
    ensures Fields(s, sep) == [s]
  {
  }

  /** strings.Join, the inverse of Split. */
  function Join(parts: seq<string>, sep: string): string
  {
    if |parts| == 0 then []
    else if |parts| == 1 then parts[0]
    else parts[0] + sep + Join(parts[1..], sep)
  }

  /** Joining the pieces of a split with the separator gives back the string. */
  lemma {:induction false} JoinSplit(s: string, sep: string)
    requires sep != []
    ensures Join(Split(s, sep), sep) == s
    decreases |s|
  {
    match IndexOf(s, sep)
    case None =>
    case Some(i) =>
      var t := s[i + |sep|..];
      IndexFromFindsFirst(s, sep, 0);
      JoinSplit(t, sep);
      JoinCons(s[..i], Split(t, sep), sep);
      assert s == s[..i] + sep + t;
  }

  /** Join of a head piece and a non-empty rest. */
  lemma {:induction false} JoinCons(a: string, rest: seq<string>, sep: string)
    requires |rest| >= 1
    ensures Join([a] + rest, sep) == a + sep + Join(rest, sep)
  {
    assert ([a] + rest)[1..] == rest;
  }

  /** No piece of a split contains the separator. */
  lemma {:induction false} SplitPiecesFree(s: string, sep: string)
    requires sep != []
    ensures forall k :: 0 <= k < |Split(s, sep)| ==> !Contains(Split(s, sep)[k], sep)
    decreases |s|
  {
    match IndexOf(s, sep)
    case None =>
    case Some(i) =>
      var rest := Split(s[i + |sep|..], sep);
      SplitPiecesFree(s[i + |sep|..], sep);
      PrefixFree(s, sep, i);
      assert Split(s, sep) == [s[..i]] + rest;
  }

  /** Before the first occurrence there is none: `s[..i]` is free of `sub`. */
  lemma {:induction false} PrefixFree(s: string, sub: string, i: nat)
    requires sub != []
    requires IndexOf(s, sub) == Some(i)
    ensures !Contains(s[..i], sub)
  {
    IndexFromFindsFirst(s, sub, 0);
    if Contains(s[..i], sub) {
      IndexFromFindsFirst(s[..i], sub, 0);
      var j := IndexOf(s[..i], sub).value;
      assert s[..i][j..j + |sub|] == s[j..j + |sub|];
      assert OccursAt(s, sub, j);
      assert false;
    }
  }

  /** A string that starts with the separator and has no other occurrence of
      it splits into an empty head and the rest. */
  lemma {:induction false} SplitAfterLeadingSeparator(sep: string, t: string)
    requires !Contains(t, sep)
    ensures sep != []
    ensures Split(sep + t, sep) == [[], t]
  {
    assert (sep + t)[0..|sep|] == sep;
    assert IndexOf(sep + t, sep) == Some(0);
    SplitAtFirst(sep + t, sep, 0);
    assert (sep + t)[|sep|..] == t;
    SplitWhole(t, sep);
  }
}
