/** String helpers: Python's `sep.join(parts)` and its inverse, splitting on a separator. */
module Strings {
  import opened Wrappers

  /** True when `s` starts with `p`. */
  predicate HasPrefix(s: string, p: string)
  {
    |p| <= |s| && s[..|p|] == p
  }

  /** True when `s` ends with `p`. */
  predicate HasSuffix(s: string, p: string)
  {
    |p| <= |s| && s[|s| - |p|..] == p
  }

  /**
   * `sep.join(parts)`: the parts in order with `sep` between neighbours. The
   * empty list joins to "" and one part to itself.
   */
  function Join(parts: seq<string>, sep: string): (r: string)
    ensures |parts| == 0 ==> r == ""
    ensures |parts| == 1 ==> r == parts[0]
  {
    if |parts| == 0 then ""
    else if |parts| == 1 then parts[0]
    else parts[0] + sep + Join(parts[1..], sep)
  }

  /** The first part opens the join and the last one closes it. */
  lemma {:induction false} JoinEnds(parts: seq<string>, sep: string)
    requires |parts| > 0
    ensures HasPrefix(Join(parts, sep), parts[0])
    ensures HasSuffix(Join(parts, sep), parts[|parts| - 1])
  {
    if |parts| > 1 {
      JoinEnds(parts[1..], sep);
      var rest := Join(parts[1..], sep);
      assert Join(parts, sep) == parts[0] + sep + rest;
      assert (parts[0] + sep + rest)[..|parts[0]|] == parts[0];
      assert parts[1..][|parts[1..]| - 1] == parts[|parts| - 1];
    }
  }

  /** Appending one more part puts it after the joined prefix, with one separator in between. */
  lemma {:induction false} JoinSnoc(parts: seq<string>, last: string, sep: string)
    requires |parts| > 0
    ensures Join(parts + [last], sep) == Join(parts, sep) + sep + last
  {
    if |parts| == 1 {
      assert parts + [last] == [parts[0], last];
    } else {
      assert (parts + [last])[1..] == parts[1..] + [last];
      JoinSnoc(parts[1..], last, sep);
    }
  }

  /** The first position at which `sep` occurs in `s`, if any. */
  function IndexOf(s: string, sep: string): (r: Option<nat>)
    requires |sep| > 0
    ensures r.Some? ==> r.value + |sep| <= |s| && s[r.value..r.value + |sep|] == sep
    ensures r.Some? ==> forall j :: 0 <= j < r.value ==> !HasPrefix(s[j..], sep)
    ensures r.None? ==> forall j :: 0 <= j <= |s| ==> !HasPrefix(s[j..], sep)
    decreases |s|
  {
    if |s| < |sep| then None
    else if s[..|sep|] == sep then Some(0)
    else
      assert forall j :: 1 <= j <= |s| ==> s[j..] == s[1..][j - 1..];
      match IndexOf(s[1..], sep)
      case None => None
      case Some(i) =>
        assert s[i + 1..i + 1 + |sep|] == s[1..][i..i + |sep|];
        Some(i + 1)
  }

  /** Cuts `s` at every occurrence of `sep`, from left to right. */
  function Split(s: string, sep: string): (r: seq<string>)
    requires |sep| > 0
    ensures |r| > 0
    decreases |s|
  {
    match IndexOf(s, sep)
    case None => [s]
    case Some(i) => [s[..i]] + Split(s[i + |sep|..], sep)
  }

  /** A string in which the first character of `sep` never occurs contains no occurrence of `sep`. */
  lemma NoIndexWithoutLead(s: string, sep: string)
    requires |sep| > 0 && sep[0] !in s
    ensures IndexOf(s, sep) == None
  {
  }

  /** When `p` cannot contain `sep`, the first occurrence of `sep` in `p + sep + t` is the one right after `p`. */
  lemma IndexAfterPart(p: string, t: string, sep: string)
    requires |sep| > 0 && sep[0] !in p
    ensures IndexOf(p + sep + t, sep) == Some(|p|)
  {
    var s := p + sep + t;
    assert s[|p|..|p| + |sep|] == sep;
    var r := IndexOf(s, sep);
    assert HasPrefix(s[|p|..], sep);
    assert forall j :: 0 <= j < |p| ==> s[j] == p[j];
  }

  /** A join of two or more parts is the first part, the separator, and the join of the rest. */
  lemma JoinCons(parts: seq<string>, sep: string)
    requires |parts| > 1
    ensures Join(parts, sep) == parts[0] + sep + Join(parts[1..], sep)
  {
  }

  /** Splitting at a found separator gives the text before it, then the split of the text after it. */
  lemma SplitAt(s: string, sep: string, i: nat)
    requires |sep| > 0 && IndexOf(s, sep) == Some(i)
    ensures Split(s, sep) == [s[..i]] + Split(s[i + |sep|..], sep)
  {
  }

  /** Splitting a join recovers the parts, provided no part contains the separator's first character. */
  lemma {:induction false} SplitJoin(parts: seq<string>, sep: string)
    requires |parts| > 0 && |sep| > 0
    requires forall i :: 0 <= i < |parts| ==> sep[0] !in parts[i]
    ensures Split(Join(parts, sep), sep) == parts
  {
    if |parts| == 1 {
      NoIndexWithoutLead(parts[0], sep);
    } else {
      var p, rest := parts[0], Join(parts[1..], sep);
      var s := p + sep + rest;
      JoinCons(parts, sep);
      IndexAfterPart(p, rest, sep);
      SplitAt(s, sep, |p|);
      assert s[..|p|] == p && s[|p| + |sep|..] == rest;
      SplitJoin(parts[1..], sep);
      assert parts == [p] + parts[1..];
    }
  }
}
