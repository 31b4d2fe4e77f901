/**
 What the coder predicts from, told by the data alone: the context of a byte is the two
 bytes before it, and what a context has counted is which bytes followed it. Nothing here
 is said in the coder's own terms but what its model is compared with.
 */
module Prediction {
  import opened Words
  import opened Interval
  import opened Contexts
  import opened RangeCoderSpec
  import opened RoundTrip

  /** The last two bytes, or all while there are fewer. */
  function Recent(d: seq<byte>): seq<byte> {
    if |d| <= 2 then d else d[|d| - 2..]
  }

  /** Somewhere in the data `v` came right after `q`. */
  ghost predicate Followed(d: seq<byte>, q: seq<byte>, v: byte) {
    exists i :: FollowedAt(d, q, v, i)
  }

  predicate FollowedAt(d: seq<byte>, q: seq<byte>, v: byte, i: int) {
    |q| <= i < |d| && d[i - |q|..i] == q && d[i] == v
  }

  /** Whether a context counts the byte `v` after `d`: the data ends with it, and `v` never
      came after a longer one that the data ends with. */
  ghost predicate Counts(d: seq<byte>, q: seq<byte>, v: byte) {
    && |q| <= 2 && Ends(d, q)
    && forall r :: |q| < |r| <= 2 && Ends(d, r) ==> !Followed(d, r, v)
  }

  /** The bytes a context has counted, in order. */
  ghost function Counted(d: seq<byte>, q: seq<byte>): seq<byte> {
    if d == [] then []
    else
      var k := |d| - 1;
      Counted(d[..k], q) + if Counts(d[..k], q, d[k]) then [d[k]] else []
  }

  /** The statistics that counting makes. */
  function Tally(list: seq<byte>, m: Minimum): Stats {
    if list == [] then Fresh(m) else Bump(Tally(list[..|list| - 1], m), list[|list| - 1], m)
  }

  /** The strings of one, two or three bytes that occur in the data. */
  function Strings(d: seq<byte>): set<seq<byte>> {
    set i, j | 0 <= i < j <= |d| && j <= i + 3 :: d[i..j]
  }

  /** The model is the one of this data. */
  ghost predicate ModelOf(md: Model, d: seq<byte>) {
    && md.hist == Recent(d)
    && (forall q: Path :: Look(md, q) == Tally(Counted(d, q), MinimumOf(q)))
    && md.used == 1 + |Strings(d)|
  }

  // ----- what follows what

  lemma EndsLonger(d: seq<byte>, q: seq<byte>, r: seq<byte>)
    requires Ends(d, q) && Ends(d, r) && |q| <= |r|
    ensures Ends(r, q)
  {
    assert d[|d| - |q|..] == d[|d| - |r|..][|r| - |q|..];
  }

  /** What followed a string followed every shorter end of it. */
  lemma FollowedShorter(d: seq<byte>, q: seq<byte>, r: seq<byte>, v: byte)
    requires Ends(r, q) && Followed(d, r, v)
    ensures Followed(d, q, v)
  {
    var i :| FollowedAt(d, r, v, i);
    assert d[i - |q|..i] == d[i - |r|..i][|r| - |q|..];
    assert FollowedAt(d, q, v, i);
  }

  lemma FollowedNext(d: seq<byte>, w: byte, q: seq<byte>, v: byte)
    ensures Followed(d + [w], q, v) <==> Followed(d, q, v) || (Ends(d, q) && v == w)
  {
    var e := d + [w];
    if i :| FollowedAt(e, q, v, i) {
      if i < |d| {
        assert e[i - |q|..i] == d[i - |q|..i];
        assert FollowedAt(d, q, v, i);
      } else {
        assert e[i - |q|..i] == d[|d| - |q|..];
      }
    }
    if i :| FollowedAt(d, q, v, i) {
      assert e[i - |q|..i] == d[i - |q|..i];
      assert FollowedAt(e, q, v, i);
    }
    if Ends(d, q) && v == w {
      assert e[|d| - |q|..|d|] == d[|d| - |q|..];
      assert FollowedAt(e, q, v, |d|);
    }
  }

  lemma CountedNext(d: seq<byte>, w: byte, q: seq<byte>)
    ensures Counted(d + [w], q) == Counted(d, q) + if Counts(d, q, w) then [w] else []
  {
    assert (d + [w])[..|d|] == d;
  }

  /** A context has counted the bytes that followed it, and no others. */
  lemma {:induction false} CountedExactly(d: seq<byte>, q: seq<byte>, v: byte)
    requires |q| <= 2
    ensures v in Counted(d, q) <==> Followed(d, q, v)
  {
    hide Counted, Followed;
    if d == [] {
      NothingFollowed(q, v);
    } else {
      var k := |d| - 1;
      var c, w := d[..k], d[k];
      assert d == c + [w];
      CountedExactly(c, q, v);
      CountedNext(c, w, q);
      FollowedNext(c, w, q, v);
      if Ends(c, q) && !Counts(c, q, w) {
        var r :| |q| < |r| <= 2 && Ends(c, r) && Followed(c, r, w);
        EndsLonger(c, q, r);
        FollowedShorter(c, q, r, w);
      }
    }
  }

  lemma NothingFollowed(q: seq<byte>, v: byte)
    ensures Counted([], q) == [] && !Followed([], q, v)
  {
  }

  lemma {:induction false} TallyKnows(list: seq<byte>, m: Minimum, v: byte)
    ensures Tally(list, m).counts[v] > 0 <==> v in list
  {
    if list != [] {
      var k := |list| - 1;
      TallyKnows(list[..k], m, v);
      BumpKnows(Tally(list[..k], m), list[k], m, v);
      assert list == list[..k] + [list[k]];
    }
  }

  // ----- how many strings

  /** The ends of the data after which `v` is new. */
  ghost function New(d: seq<byte>, p: seq<byte>, v: byte): set<seq<byte>> {
    set j | 0 <= j <= |p| && !Followed(d, p[j..], v) :: p[j..] + [v]
  }

  lemma StringIn(d: seq<byte>, i: nat, j: nat)
    requires i < j <= |d| && j <= i + 3
    ensures d[i..j] in Strings(d)
  {
  }

  lemma StringAt(d: seq<byte>, s: seq<byte>) returns (i: nat, j: nat)
    requires s in Strings(d)
    ensures i < j <= |d| && j <= i + 3 && d[i..j] == s
  {
    i, j :| 0 <= i < j <= |d| && j <= i + 3 && d[i..j] == s;
  }

  lemma StringsKnow(d: seq<byte>, q: seq<byte>, v: byte)
    requires |q| <= 2
    ensures q + [v] in Strings(d) <==> Followed(d, q, v)
  {
    hide Strings;
    if q + [v] in Strings(d) {
      var i, j := StringAt(d, q + [v]);
      assert d[i..j - 1] == (q + [v])[..|q|] == q && d[j - 1] == (q + [v])[|q|];
      assert FollowedAt(d, q, v, j - 1);
    }
    if i :| FollowedAt(d, q, v, i) {
      StringIn(d, i - |q|, i + 1);
      assert d[i - |q|..i + 1] == d[i - |q|..i] + [d[i]];
    }
  }

  lemma NewIn(d: seq<byte>, p: seq<byte>, v: byte, q: seq<byte>)
    ensures q + [v] in New(d, p, v) <==> Ends(p, q) && !Followed(d, q, v)
  {
    hide Followed;
    if q + [v] in New(d, p, v) {
      var j :| 0 <= j <= |p| && !Followed(d, p[j..], v) && p[j..] + [v] == q + [v];
      assert q == (q + [v])[..|q|] && p[j..] == (p[j..] + [v])[..|p| - j];
    }
    if Ends(p, q) && !Followed(d, q, v) {
      assert p[|p| - |q|..] == q;
    }
  }

  lemma NewAt(d: seq<byte>, p: seq<byte>, v: byte, s: seq<byte>) returns (q: seq<byte>)
    requires s in New(d, p, v)
    ensures s == q + [v] && Ends(p, q) && !Followed(d, q, v)
  {
    hide Followed;
    var j :| 0 <= j <= |p| && !Followed(d, p[j..], v) && p[j..] + [v] == s;
    q := p[j..];
  }

  lemma StringsNext(d: seq<byte>, v: byte)
    ensures Strings(d + [v]) == Strings(d) + New(d, Recent(d), v)
    ensures Strings(d) !! New(d, Recent(d), v)
  {
    hide Followed, Strings, New, Ends;
    var e, p := d + [v], Recent(d);
    forall s | s in Strings(e) ensures s in Strings(d) + New(d, p, v) {
      StringOld(d, v, s);
    }
    forall s | s in Strings(d) ensures s in Strings(e) {
      var i, j := StringAt(d, s);
      assert e[i..j] == d[i..j];
      StringIn(e, i, j);
    }
    forall s | s in New(d, p, v) ensures s in Strings(e) && s !in Strings(d) {
      StringNew(d, v, s);
    }
  }

  lemma StringOld(d: seq<byte>, v: byte, s: seq<byte>)
    requires s in Strings(d + [v])
    ensures s in Strings(d) || s in New(d, Recent(d), v)
  {
    hide Followed, Strings, New;
    var i, j := StringAt(d + [v], s);
    if j <= |d| {
      assert (d + [v])[i..j] == d[i..j];
      StringIn(d, i, j);
    } else {
      var q := d[i..];
      assert s == q + [v];
      StringsKnow(d, q, v);
      RecentEnds(d, q);
      NewIn(d, Recent(d), v, q);
    }
  }

  lemma StringNew(d: seq<byte>, v: byte, s: seq<byte>)
    requires s in New(d, Recent(d), v)
    ensures s in Strings(d + [v]) && s !in Strings(d)
  {
    hide Followed, Strings, New;
    var q := NewAt(d, Recent(d), v, s);
    RecentEnds(d, q);
    StringsKnow(d, q, v);
    assert (d + [v])[|d| - |q|..|d| + 1] == q + [v];
    StringIn(d + [v], |d| - |q|, |d| + 1);
  }

  // ----- one byte

  /** What coding a byte leaves of the model, in every context on the way. */
  function LearnDown(md: Model, p: Path, v: byte): Model
    decreases |p|
  {
    if p == [] || Look(md, p).counts[v] > 0 then Learn(md, p, v) else LearnDown(Learn(md, p, v), Shorter(p), v)
  }

  lemma {:induction false} EncodeLearnsDown(md: Model, p: Path, v: byte, i: Interval)
    requires AllBalanced(md) && Ready(i)
    ensures EncodeValue(md, p, v, i).md == LearnDown(md, p, v)
    decreases |p|
  {
    hide Look, Learn, EncodeValue, CodeIn, AllBalanced, Balanced;
    EncodeStep(md, p, v, i);
    if p != [] && Look(md, p).counts[v] == 0 {
      EncodeLearnsDown(Learn(md, p, v), Shorter(p), v, CodeIn(Look(md, p), v, 0, i).1);
    }
  }

  /** The model knows of `v`, in the context and the shorter ones, what followed them. */
  ghost predicate Knows(md: Model, d: seq<byte>, p: Path, v: byte) {
    forall q: Path :: Ends(p, q) ==> (Look(md, q).counts[v] > 0 <==> Followed(d, q, v))
  }

  /** A context learns the byte unless a longer one on the way knew it. */
  ghost predicate Reached(d: seq<byte>, p: Path, q: Path, v: byte) {
    Ends(p, q) && forall r :: |q| < |r| && Ends(p, r) ==> !Followed(d, r, v)
  }

  lemma LearnHere(md: Model, p: Path, v: byte)
    ensures Look(Learn(md, p, v), p) == Bump(Look(md, p), v, MinimumOf(p))
  {
  }

  lemma KnowsShorter(md: Model, d: seq<byte>, p: Path, v: byte)
    requires Knows(md, d, p, v) && p != []
    ensures Knows(Learn(md, p, v), d, Shorter(p), v)
  {
    hide Look, Learn, Followed;
    forall q: Path | Ends(Shorter(p), q)
      ensures Look(Learn(md, p, v), q).counts[v] > 0 <==> Followed(d, q, v)
    {
      EndsOfShorter(p, q);
      LearnElsewhere(md, p, v, q);
    }
  }

  lemma EndsOfShorter(p: Path, q: Path)
    requires p != []
    ensures Ends(p, q) && q != p <==> Ends(Shorter(p), q)
  {
    if Ends(p, q) && q != p {
      assert Shorter(p)[|p| - 1 - |q|..] == p[|p| - |q|..];
    }
    if Ends(Shorter(p), q) {
      assert Shorter(p)[|p| - 1 - |q|..] == p[|p| - |q|..];
    }
  }

  lemma {:induction false} LearnDownLooks(md: Model, d: seq<byte>, p: Path, v: byte, q: Path)
    requires Knows(md, d, p, v)
    ensures Look(LearnDown(md, p, v), q) ==
            if Reached(d, p, q, v) then Bump(Look(md, q), v, MinimumOf(q)) else Look(md, q)
    decreases |p|
  {
    hide Look, Learn, Followed, Bump;
    assert Ends(p, p);
    var l := Learn(md, p, v);
    LearnHere(md, p, v);
    if p != q {
      LearnElsewhere(md, p, v, q);
    }
    if p == [] || Look(md, p).counts[v] > 0 {
      StopsHere(d, p, q, v);
    } else {
      KnowsShorter(md, d, p, v);
      LearnDownLooks(l, d, Shorter(p), v, q);
      ReachedShorter(d, p, q, v);
    }
  }

  lemma StopsHere(d: seq<byte>, p: Path, q: Path, v: byte)
    requires p == [] || Followed(d, p, v)
    ensures Reached(d, p, q, v) <==> q == p
  {
    hide Followed;
    assert Ends(p, p);
    if Ends(p, q) && |q| == |p| {
      assert p[0..] == p;
    }
    assert Ends(p, q) && |q| < |p| ==> !Reached(d, p, q, v);
  }

  lemma ReachedShorter(d: seq<byte>, p: Path, q: Path, v: byte)
    requires p != [] && !Followed(d, p, v)
    ensures Reached(d, p, q, v) <==> q == p || Reached(d, Shorter(p), q, v)
    ensures !Reached(d, Shorter(p), p, v)
  {
    hide Followed;
    assert Ends(p, p);
    EndsOfShorter(p, q);
    if Reached(d, p, q, v) && q != p {
      forall r | |q| < |r| && Ends(Shorter(p), r) ensures !Followed(d, r, v) {
        EndsOfShorter(p, r);
      }
    }
    if Reached(d, Shorter(p), q, v) {
      forall r | |q| < |r| && Ends(p, r) ensures !Followed(d, r, v) {
        EndsOfShorter(p, r);
      }
    }
    if q == p {
      forall r | |q| < |r| && Ends(p, r) ensures !Followed(d, r, v) {
      }
    }
  }

  lemma {:induction false} LearnDownUses(md: Model, d: seq<byte>, p: Path, v: byte)
    requires Knows(md, d, p, v)
    ensures LearnDown(md, p, v).used == md.used + |New(d, p, v)|
    ensures LearnDown(md, p, v).hist == md.hist
    decreases |p|
  {
    hide Look, Followed;
    assert Ends(p, p);
    NewNext(d, p, v);
    if p != [] && Look(md, p).counts[v] == 0 {
      KnowsShorter(md, d, p, v);
      LearnDownUses(Learn(md, p, v), d, Shorter(p), v);
    }
  }

  lemma NewNext(d: seq<byte>, p: seq<byte>, v: byte)
    ensures Followed(d, p, v) ==> |New(d, p, v)| == 0
    ensures !Followed(d, p, v) ==> |New(d, p, v)| == 1 + if p == [] then 0 else |New(d, p[1..], v)|
  {
    hide Followed;
    assert p[0..] == p;
    if Followed(d, p, v) {
      forall j | 0 <= j <= |p| ensures Followed(d, p[j..], v) {
        FollowedShorter(d, p[j..], p, v);
      }
      assert New(d, p, v) == {};
    } else if p == [] {
      assert New(d, p, v) == {p + [v]};
    } else {
      var t := p[1..];
      forall j | 0 <= j <= |t| ensures t[j..] == p[j + 1..] && |t[j..] + [v]| < |p + [v]| {
      }
      forall s | s in New(d, p, v) ensures s in New(d, t, v) + {p + [v]} {
        var j :| 0 <= j <= |p| && !Followed(d, p[j..], v) && p[j..] + [v] == s;
        if j > 0 {
          assert t[j - 1..] == p[j..];
        }
      }
      forall s | s in New(d, t, v) ensures s in New(d, p, v) && s != p + [v] {
        var j :| 0 <= j <= |t| && !Followed(d, t[j..], v) && t[j..] + [v] == s;
        assert p[j + 1..] == t[j..];
      }
      assert New(d, p, v) == New(d, t, v) + {p + [v]};
    }
  }

  /** Coding one more byte makes the model the one of the data with that byte. */
  lemma ByteLearned(md: Model, d: seq<byte>, v: byte)
    requires ModelOf(md, d)
    ensures var l, e := LearnDown(md, md.hist, v), d + [v];
            && (forall q: Path :: Look(l, q) == Tally(Counted(e, q), MinimumOf(q)))
            && l.used == 1 + |Strings(e)| && l.hist == md.hist
  {
    hide Look, Followed, Counted, Tally, Bump, LearnDown, Strings;
    var p := md.hist;
    ModelKnows(md, d, v);
    forall q: Path
      ensures Look(LearnDown(md, p, v), q) == Tally(Counted(d + [v], q), MinimumOf(q))
    {
      LearnDownLooks(md, d, p, v, q);
      CountedNext(d, v, q);
      CountsReached(d, q, v);
      TallyNext(Counted(d, q), v, MinimumOf(q));
      assert Counted(d, q) + [] == Counted(d, q);
    }
    LearnDownUses(md, d, p, v);
    StringsNext(d, v);
  }

  lemma TallyNext(list: seq<byte>, v: byte, m: Minimum)
    ensures Tally(list + [v], m) == Bump(Tally(list, m), v, m)
  {
    assert (list + [v])[..|list|] == list;
  }

  lemma ModelKnows(md: Model, d: seq<byte>, v: byte)
    requires ModelOf(md, d)
    ensures Knows(md, d, Recent(d), v)
  {
    hide Look, Followed, Counted, Tally;
    forall q: Path | Ends(Recent(d), q) ensures Look(md, q).counts[v] > 0 <==> Followed(d, q, v) {
      CountedExactly(d, q, v);
      TallyKnows(Counted(d, q), MinimumOf(q), v);
    }
  }

  lemma CountsReached(d: seq<byte>, q: seq<byte>, v: byte)
    ensures Counts(d, q, v) <==> Reached(d, Recent(d), q, v)
  {
    hide Followed;
    RecentEnds(d, q);
    forall r: Path ensures |r| <= 2 && Ends(d, r) <==> Ends(Recent(d), r) {
      RecentEnds(d, r);
    }
  }

  lemma RecentEnds(d: seq<byte>, q: seq<byte>)
    ensures |q| <= 2 && Ends(d, q) <==> Ends(Recent(d), q)
  {
    var p := Recent(d);
    if |q| <= |p| {
      assert p[|p| - |q|..] == d[|d| - |q|..];
    }
  }

  /** A byte is coded in the longest context that it followed before, or in the root. */
  lemma {:induction false} CodedWhereKnown(md: Model, d: seq<byte>, p: Path, v: byte)
    requires Knows(md, d, p, v)
    ensures var r := Stop(md, p, v);
            (r == [] || Followed(d, r, v)) && forall q :: Ends(p, q) && |q| > |r| ==> !Followed(d, q, v)
    decreases |p|
  {
    hide Look, Followed;
    assert Ends(p, p);
    if p != [] && Look(md, p).counts[v] == 0 {
      forall q | Ends(Shorter(p), q) ensures Ends(p, q) {
        EndsOfShorter(p, q);
      }
      CodedWhereKnown(md, d, Shorter(p), v);
      var r := Stop(md, p, v);
      forall q | Ends(p, q) && |q| > |r| ensures !Followed(d, q, v) {
        EndsOfShorter(p, q);
      }
    }
  }

  // ----- a whole stream

  /** Where in the data the model last started afresh: as soon as three- and fewer-byte
      strings, of those since the last time, number 4093 or more. */
  function Since(data: seq<byte>, k: nat): (s: nat)
    requires k <= |data|
    ensures s <= k
  {
    if k == 0 then 0
    else
      var s := Since(data, k - 1);
      if |Strings(data[s..k])| >= 4093 then k else s
  }

  /** The compressor after `k` bytes: what it has written, its model and its interval. */
  function Coded(data: seq<byte>, k: nat): (e: Encoded)
    requires k <= |data|
    ensures Healthy(e.md) && Ready(e.i)
  {
    if k == 0 then
      InitialHealthy();
      Encoded([], INITIAL, FULL)
    else
      var c := Coded(data, k - 1);
      var e := EncodeValue(c.md, c.md.hist, data[k - 1], c.i);
      AdvanceHealthy(e.md, data[k - 1]);
      Encoded(c.bytes + e.bytes, Advance(e.md, data[k - 1]), e.i)
  }

  /** The stream is made by coding byte after byte. */
  lemma {:induction false} StreamParts(data: seq<byte>, k: nat)
    requires k <= |data|
    ensures Stream(data) == Coded(data, k).bytes + Encode(Coded(data, k).md, data[k..], Coded(data, k).i)
  {
    hide Healthy, EncodeValue, Advance, Flush;
    if k == 0 {
      InitialHealthy();
      assert data[0..] == data;
      assert [] + Encode(INITIAL, data, FULL) == Encode(INITIAL, data, FULL);
    } else {
      StreamParts(data, k - 1);
      var rest, v := data[k - 1..], data[k - 1];
      assert rest[0] == v && rest[1..] == data[k..];
      var c, e := Coded(data, k - 1), Coded(data, k);
      HealthyBalanced(c.md);
      var part := EncodeValue(c.md, c.md.hist, v, c.i);
      assert c.bytes + (part.bytes + Encode(e.md, data[k..], e.i)) == e.bytes + Encode(e.md, data[k..], e.i);
    }
  }

  /** After any part of any data, the context of the next byte is the last two bytes since
      the model last started afresh, and each context has counted which bytes followed it
      since then and were new to the longer ones. */
  lemma {:induction false} PredictsFromLastTwo(data: seq<byte>, k: nat)
    requires k <= |data|
    ensures ModelOf(Coded(data, k).md, data[Since(data, k)..k])
  {
    hide Healthy, Ready, EncodeValue, ModelOf, AllBalanced, Strings, LearnDown, Advance;
    NothingCounted();
    if k == 0 {
      assert data[0..0] == [];
    } else {
      PredictsFromLastTwo(data, k - 1);
      var c, s, v := Coded(data, k - 1), Since(data, k - 1), data[k - 1];
      OneByteMore(data, s, k);
      HealthyBalanced(c.md);
      EncodeLearnsDown(c.md, c.md.hist, v, c.i);
      Advanced(c.md, data[s..k - 1], v);
    }
  }

  lemma OneByteMore(data: seq<byte>, s: nat, k: nat)
    requires s < k <= |data|
    ensures data[s..k - 1] + [data[k - 1]] == data[s..k] && data[k..k] == []
  {
  }

  lemma HealthyBalanced(md: Model)
    requires Healthy(md)
    ensures AllBalanced(md)
  {
  }

  lemma NothingCounted()
    ensures ModelOf(INITIAL, [])
  {
    hide Fresh;
    assert Strings([]) == {};
  }

  lemma Advanced(md: Model, d: seq<byte>, v: byte)
    requires ModelOf(md, d)
    ensures var e, l := d + [v], LearnDown(md, md.hist, v);
            if |Strings(e)| >= 4093 then Advance(l, v) == INITIAL else ModelOf(Advance(l, v), e)
  {
    hide Counted, Tally, LearnDown, Strings, Look;
    ByteLearned(md, d, v);
    var e, l := d + [v], LearnDown(md, md.hist, v);
    RecentNext(d, v);
    if |Strings(e)| < 4093 {
      forall q: Path ensures Look(Advance(l, v), q) == Tally(Counted(e, q), MinimumOf(q)) {
        SameTable(l, Advance(l, v), q);
      }
    }
  }

  lemma RecentNext(d: seq<byte>, v: byte)
    ensures Recent(d + [v]) == if |Recent(d)| >= 2 then (Recent(d) + [v])[1..] else Recent(d) + [v]
  {
  }

  lemma SameTable(a: Model, b: Model, q: Path)
    requires a.table == b.table
    ensures Look(a, q) == Look(b, q)
  {
  }

  // ----- what counting comes to in numbers

  function Times(list: seq<byte>, v: byte): nat {
    if list == [] then 0 else Times(list[..|list| - 1], v) + if list[|list| - 1] == v then 1 else 0
  }

  /** How many different bytes are in a list. */
  function Kinds(list: seq<byte>): nat {
    if list == [] then 0
    else
      var k := |list| - 1;
      Kinds(list[..k]) + if list[k] in list[..k] then 0 else 1
  }

  /** While it has counted few bytes, a context gives each byte 2 for every time it came, and
      5 to the escape for every one that was new; the root gives 3, beside 1 for every byte
      that never came and 1 for the end of the data. */
  lemma {:induction false} FewCounted(list: seq<byte>, m: Minimum)
    requires |list| <= 84
    ensures var st := Tally(list, m);
            && (forall v: byte :: st.counts[v] == (if m == 1 then 3 else 2) * Times(list, v))
            && st.escapes == (if m == 1 then 1 else 5 * Kinds(list))
            && st.total == (if m == 1 then 257 + 3 * |list| else 5 * Kinds(list) + 2 * |list|)
  {
    if list != [] {
      var k := |list| - 1;
      var v := list[k];
      FewCounted(list[..k], m);
      TimesIn(list[..k], v);
      KindsFew(list[..k]);
    }
  }

  lemma {:induction false} TimesIn(list: seq<byte>, v: byte)
    ensures Times(list, v) <= |list| && (Times(list, v) > 0 <==> v in list)
  {
    if list != [] {
      var k := |list| - 1;
      TimesIn(list[..k], v);
      assert list == list[..k] + [list[k]];
    }
  }

  lemma {:induction false} KindsFew(list: seq<byte>)
    ensures Kinds(list) <= |list|
  {
    if list != [] {
      KindsFew(list[..|list| - 1]);
    }
  }

  /** All weights are halved, rounded up, when a byte's had passed 249 in the root or 251
      elsewhere, or the total passes 65280; not otherwise. */
  lemma HalvedExactly(st: Stats, v: byte, m: Minimum, w: byte)
    requires Balanced(st, m)
    ensures var b, add := Bump(st, v, m), if m == 1 then 3 else 2;
            var extra := if m == 0 && st.counts[v] == 0 then 5 else 0;
            var c, e := st.counts[w] + (if w == v then add else 0), st.escapes + extra;
            if st.counts[v] > (if m == 1 then 249 else 251) || st.total + add + extra > 65280 then
              b.counts[w] == (c + 1) / 2 && b.escapes == (e + 1) / 2
            else b.counts[w] == c && b.escapes == e
  {
  }
}
