/** How one broadcast fans out to players, and the viewer list it fans out to.

    The engine keeps the viewers in a hash set; the model keeps them in a
    duplicate-free sequence in insertion order, so that a broadcast reaches
    them in one fixed order. Membership is all the controller relies on. */
module Delivery {
  import opened Vectors
  import opened Packets

  predicate NoDuplicates(s: seq<PlayerId>) {
    forall i, j :: 0 <= i < j < |s| ==> s[i] != s[j]
  }

  /** `s` with `x` taken out, the rest in the same order. */
  function Without(s: seq<PlayerId>, x: PlayerId): (r: seq<PlayerId>)
    ensures forall y :: y in r <==> y in s && y != x
    ensures x !in s ==> r == s
    ensures NoDuplicates(s) ==> NoDuplicates(r)
    ensures NoDuplicates(s) && x in s ==> |r| == |s| - 1
  {
    if s == [] then []
    else if s[0] == x then Without(s[1..], x)
    else
      assert s == [s[0]] + s[1..];
      NoDuplicatesCons(s[0], s[1..]);
      NoDuplicatesCons(s[0], Without(s[1..], x));
      [s[0]] + Without(s[1..], x)
  }

  lemma NoDuplicatesCons(a: PlayerId, t: seq<PlayerId>)
    ensures NoDuplicates([a] + t) <==> a !in t && NoDuplicates(t)
  {
    var s := [a] + t;
    if NoDuplicates(s) {
      forall k | 0 <= k < |t| ensures t[k] != a {
        assert s[0] == a && s[k + 1] == t[k];
      }
      forall i, j | 0 <= i < j < |t| ensures t[i] != t[j] {
        assert s[i + 1] == t[i] && s[j + 1] == t[j];
      }
    }
  }

  /** A duplicate-free list holds as many players as the set of its members. */
  lemma {:induction false} DistinctCard(s: seq<PlayerId>)
    requires NoDuplicates(s)
    ensures |set q | q in s| == |s|
    decreases |s|
  {
    if s != [] {
      assert s == [s[0]] + s[1..];
      NoDuplicatesCons(s[0], s[1..]);
      DistinctCard(s[1..]);
      assert (set q | q in s) == {s[0]} + (set q | q in s[1..]);
    }
  }

  /** The packet sent to each viewer in turn. */
  function Fanout(viewers: seq<PlayerId>, p: Packet): (r: seq<Send>)
    ensures |r| == |viewers|
  {
    if viewers == [] then [] else [(viewers[0], p)] + Fanout(viewers[1..], p)
  }

  /** The `i`-th send goes to the `i`-th viewer. */
  lemma {:induction false} FanoutAt(viewers: seq<PlayerId>, p: Packet, i: int)
    requires 0 <= i < |viewers|
    ensures Fanout(viewers, p)[i] == (viewers[i], p)
  {
    if i > 0 {
      FanoutAt(viewers[1..], p, i - 1);
    }
  }

  lemma FanoutSnoc(viewers: seq<PlayerId>, q: PlayerId, p: Packet)
    ensures Fanout(viewers + [q], p) == Fanout(viewers, p) + [(q, p)]
  {
    var a, b := Fanout(viewers + [q], p), Fanout(viewers, p) + [(q, p)];
    assert |a| == |b|;
    forall i | 0 <= i < |a| ensures a[i] == b[i] {
      FanoutAt(viewers + [q], p, i);
      if i < |viewers| {
        FanoutAt(viewers, p, i);
        assert (viewers + [q])[i] == viewers[i];
      }
    }
  }

  /** Every viewer receives the packet. */
  lemma FanoutReachesAll(viewers: seq<PlayerId>, p: Packet, q: PlayerId)
    requires q in viewers
    ensures (q, p) in Fanout(viewers, p)
  {
    var i :| 0 <= i < |viewers| && viewers[i] == q;
    FanoutAt(viewers, p, i);
  }

  /** The sends of one broadcast: to the entity itself first when asked for and
      the entity is a player (`self` is then its id), then to every viewer. */
  function DeliverOne(c: Cast, viewers: seq<PlayerId>, self: Option<PlayerId>): (r: seq<Send>)
    ensures |r| == |viewers| + (if c.includeSelf && self.Some? then 1 else 0)
    ensures c.includeSelf && self.Some? ==> r[0] == (self.value, c.packet)
  {
    (if c.includeSelf && self.Some? then [(self.value, c.packet)] else []) + Fanout(viewers, c.packet)
  }

  /** Every viewer receives the packet, and nobody else but the entity itself
      when asked for. */
  lemma DeliverOneSends(c: Cast, viewers: seq<PlayerId>, self: Option<PlayerId>)
    ensures forall q :: q in viewers ==> (q, c.packet) in DeliverOne(c, viewers, self)
    ensures var r := DeliverOne(c, viewers, self);
            forall i :: 0 <= i < |r| ==>
              r[i].1 == c.packet && (r[i].0 in viewers || (c.includeSelf && self == Some(r[i].0)))
  {
    var r := DeliverOne(c, viewers, self);
    var pre := if c.includeSelf && self.Some? then [(self.value, c.packet)] else [];
    var f := Fanout(viewers, c.packet);
    assert r == pre + f;
    forall q | q in viewers ensures (q, c.packet) in r {
      FanoutReachesAll(viewers, c.packet, q);
    }
    forall i | 0 <= i < |r|
      ensures r[i].1 == c.packet && (r[i].0 in viewers || (c.includeSelf && self == Some(r[i].0)))
    {
      if i >= |pre| {
        FanoutAt(viewers, c.packet, i - |pre|);
        assert r[i] == f[i - |pre|];
      }
    }
  }

  /** The sends of several broadcasts made one after another. */
  function Deliver(casts: seq<Cast>, viewers: seq<PlayerId>, self: Option<PlayerId>): (r: seq<Send>)
    ensures casts == [] ==> r == []
  {
    if casts == [] then []
    else DeliverOne(casts[0], viewers, self) + Deliver(casts[1..], viewers, self)
  }

  lemma DeliverSingle(c: Cast, viewers: seq<PlayerId>, self: Option<PlayerId>)
    ensures Deliver([c], viewers, self) == DeliverOne(c, viewers, self)
  {
    assert [c][1..] == [];
  }

  /** Broadcasting `a` and then `b` sends what broadcasting `a + b` sends. */
  lemma {:induction false} DeliverAppend(a: seq<Cast>, b: seq<Cast>, viewers: seq<PlayerId>, self: Option<PlayerId>)
    ensures Deliver(a + b, viewers, self) == Deliver(a, viewers, self) + Deliver(b, viewers, self)
  {
    if a == [] {
      assert a + b == b;
    } else {
      assert (a + b)[0] == a[0];
      assert (a + b)[1..] == a[1..] + b;
      DeliverAppend(a[1..], b, viewers, self);
    }
  }
}
