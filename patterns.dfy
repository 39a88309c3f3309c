/** The regular expressions that pull a Google Drive id out of a link, all
    of the form `MARKER([a-zA-Z0-9_-]+)`, and the thumbnail address built
    from such an id. */
module Patterns {
  import opened Wrappers
  import Text

  /** The class `[a-zA-Z0-9_-]`. */
  predicate IsIdChar(c: char) {
    'a' <= c <= 'z' || 'A' <= c <= 'Z' || '0' <= c <= '9' || c == '_' || c == '-'
  }

  predicate AllIdChars(s: string) {
    forall i :: 0 <= i < |s| ==> IsIdChar(s[i])
  }

  /** A marker: a sequence of character classes, one per character, such
      as `\/file\/d\/` or `[?&]id=`. */
  type Marker = seq<set<char>>

  /** The marker that matches exactly the literal `s`. */
  function Lit(s: string): (m: Marker)
    ensures |m| == |s| && forall k :: 0 <= k < |s| ==> m[k] == {s[k]}
  {
    seq(|s|, k requires 0 <= k < |s| => {s[k]})
  }

  predicate MarkerAt(s: string, i: nat, m: Marker) {
    i + |m| <= |s| && forall k :: 0 <= k < |m| ==> s[i + k] in m[k]
  }

  /** The whole expression `MARKER([a-zA-Z0-9_-]+)` matches at `i`: the
      marker, then at least one id character. */
  predicate MatchesAt(s: string, m: Marker, i: nat) {
    i + |m| < |s| && MarkerAt(s, i, m) && IsIdChar(s[i + |m|])
  }

  /** The greedy group `([a-zA-Z0-9_-]+)`: the longest prefix of `t` made of
      id characters. */
  function IdRun(t: string): (r: string)
    ensures |r| <= |t| && r == t[..|r|]
    ensures AllIdChars(r)
    ensures |r| < |t| ==> !IsIdChar(t[|r|])
    ensures t != [] && IsIdChar(t[0]) ==> r != []
  {
    if t == [] || !IsIdChar(t[0]) then []
    else
      var rest := IdRun(t[1..]);
      assert t[1..][..|rest|] == t[1..1 + |rest|];
      [t[0]] + rest
  }

  /** An id-character run is its own maximal run once it is followed by a
      character outside the class. */
  lemma {:induction false} IdRunOfDelimited(id: string, tail: string)
    requires AllIdChars(id)
    requires tail == [] || !IsIdChar(tail[0])
    ensures IdRun(id + tail) == id
  {
    if id != [] {
      assert (id + tail)[1..] == id[1..] + tail;
      IdRunOfDelimited(id[1..], tail);
    }
  }

  /** The leftmost position at or after `from` where the expression
      matches, or -1. */
  function FirstMatchFrom(s: string, m: Marker, from: nat): (r: int)
    ensures r == -1 || (from <= r && MatchesAt(s, m, r))
    ensures r == -1 ==> forall i :: from <= i ==> !MatchesAt(s, m, i)
    ensures r != -1 ==> forall i :: from <= i < r ==> !MatchesAt(s, m, i)
    decreases |s| - from
  {
    if from + |m| >= |s| then -1
    else if MarkerAt(s, from, m) && IsIdChar(s[from + |m|]) then from
    else FirstMatchFrom(s, m, from + 1)
  }

  /** `s.match(/MARKER([a-zA-Z0-9_-]+)/)?.[1]`: the group of the leftmost
      match, or `None` when the expression does not match. */
  function Capture(s: string, m: Marker): (r: Option<string>)
    ensures r.None? <==> forall i :: !MatchesAt(s, m, i)
    ensures r.Some? ==> r.value != [] && AllIdChars(r.value)
  {
    var i := FirstMatchFrom(s, m, 0);
    if i == -1 then None else Some(IdRun(s[i + |m|..]))
  }

  /** What the group holds: the maximal id run after the marker at the
      leftmost match. */
  lemma CaptureIsLeftmostRun(s: string, m: Marker, i: nat)
    requires MatchesAt(s, m, i)
    requires forall j :: 0 <= j < i ==> !MatchesAt(s, m, j)
    ensures Capture(s, m) == Some(IdRun(s[i + |m|..]))
  {
    var k := FirstMatchFrom(s, m, 0);
    assert k != -1;
    assert !(k < i) && !(i < k);
  }

  /** A captured id occurs in the text. */
  lemma CaptureOccurs(s: string, m: Marker)
    requires Capture(s, m).Some?
    ensures Text.Contains(s, Capture(s, m).value)
  {
    var k := FirstMatchFrom(s, m, 0);
    var id := IdRun(s[k + |m|..]);
    assert Text.OccursAt(id, s, k + |m|);
  }

  // ------------------------------------------------------ thumbnail links

  const ThumbnailPrefix := "https://drive.google.com/thumbnail?id="
  const ThumbnailSuffix := "&sz=w400"

  /** `https://drive.google.com/thumbnail?id=${id}&sz=w400`. */
  function ThumbnailUrl(id: string): (u: string)
    ensures |u| == |ThumbnailPrefix| + |id| + |ThumbnailSuffix|
    ensures u[|ThumbnailPrefix|..|ThumbnailPrefix| + |id|] == id
  {
    ThumbnailPrefix + id + ThumbnailSuffix
  }
}
