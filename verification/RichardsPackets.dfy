/**
  Packets, which are their own list nodes, and the places they can be in.
*/
module RichardsPackets {

  datatype Kind = DeviceKind | WorkKind

  const DATA_SIZE := 4

  class Packet {
    var link: Packet?
    var id: nat
    const kind: Kind
    var a1: int
    var a2: seq<int>

    constructor (link: Packet?, id: nat, kind: Kind)
      ensures this.link == link && this.id == id && this.kind == kind && a1 == 0 && |a2| == DATA_SIZE
    {
      this.link := link;
      this.id := id;
      this.kind := kind;
      a1 := 0;
      a2 := [0, 0, 0, 0];
    }
  }

  /** The places of packets: the queue of a task, the two lists of a handler, the packet of a device. */
  datatype Slot = Queue(id: nat) | Work(id: nat) | Data(id: nat) | Pending(id: nat)

  type Lists = map<Slot, seq<Packet>>

  function At(lists: Lists, s: Slot): seq<Packet> {
    if s in lists then lists[s] else []
  }

  function First(s: seq<Packet>): Packet? {
    if s == [] then null else s[0]
  }

  function After(s: seq<Packet>, t: int): Packet?
    requires 0 <= t < |s|
  {
    if t + 1 < |s| then s[t + 1] else null
  }

  /** Slot s has a packet at position t. */
  ghost predicate Place(lists: Lists, s: Slot, t: int) {
    0 <= t < |At(lists, s)|
  }

  /** Each of these packets is in exactly one place, and no other packet is in any. */
  ghost predicate Partition(lists: Lists, all: set<Packet>) {
    && (forall s, t :: Place(lists, s, t) ==> At(lists, s)[t] in all)
    && (forall p :: p in all ==> exists s, t :: Place(lists, s, t) && At(lists, s)[t] == p)
    && (forall s, t, u, v :: Place(lists, s, t) && Place(lists, u, v) && At(lists, s)[t] == At(lists, u)[v] ==> s == u && t == v)
  }

  /** The conservation statement in words of one packet. */
  lemma ExactlyOnePlace(lists: Lists, all: set<Packet>, p: Packet) returns (s: Slot, t: int)
    requires Partition(lists, all) && p in all
    ensures Place(lists, s, t) && At(lists, s)[t] == p
    ensures forall u, v :: Place(lists, u, v) && At(lists, u)[v] == p ==> u == s && v == t
  {
    s, t :| Place(lists, s, t) && At(lists, s)[t] == p;
  }

  function Back(s: Slot, u: Slot, t: int): int {
    if u == s then t + 1 else t
  }

  /** A place after the first packet of s is gone, as a place before. */
  lemma PlaceBack(lists: Lists, s: Slot, u: Slot, t: int)
    requires At(lists, s) != []
    ensures var after := lists[s := At(lists, s)[1..]];
            Place(after, u, t) <==> t >= 0 && Place(lists, u, Back(s, u, t))
    ensures var after := lists[s := At(lists, s)[1..]];
            Place(after, u, t) ==> At(after, u)[t] == At(lists, u)[Back(s, u, t)]
  {
  }

  /** Where a remaining packet was, and that it is not the first one of s. */
  lemma StillThere(lists: Lists, all: set<Packet>, s: Slot, u: Slot, t: int)
    requires Partition(lists, all) && At(lists, s) != [] && Place(lists[s := At(lists, s)[1..]], u, t)
    ensures Place(lists, u, Back(s, u, t)) && At(lists[s := At(lists, s)[1..]], u)[t] == At(lists, u)[Back(s, u, t)]
    ensures At(lists, u)[Back(s, u, t)] in all - {At(lists, s)[0]}
  {
    PlaceBack(lists, s, u, t);
    assert Place(lists, s, 0);
    assert !(u == s && Back(s, u, t) == 0);
  }

  lemma StillPlaced(lists: Lists, all: set<Packet>, s: Slot, q: Packet) returns (u: Slot, t: int)
    requires Partition(lists, all) && At(lists, s) != [] && q in all && q != At(lists, s)[0]
    ensures Place(lists[s := At(lists, s)[1..]], u, t) && At(lists[s := At(lists, s)[1..]], u)[t] == q
  {
    u, t :| Place(lists, u, t) && At(lists, u)[t] == q;
    if u == s {
      t := t - 1;
    }
  }

  lemma Popped(lists: Lists, all: set<Packet>, s: Slot)
    requires Partition(lists, all) && At(lists, s) != []
    ensures At(lists, s)[0] in all
    ensures Partition(lists[s := At(lists, s)[1..]], all - {At(lists, s)[0]})
  {
    assert Place(lists, s, 0);
    var p, after := At(lists, s)[0], lists[s := At(lists, s)[1..]];
    forall u, t | Place(after, u, t) ensures At(after, u)[t] in all - {p} {
      StillThere(lists, all, s, u, t);
    }
    forall q | q in all - {p} ensures exists u, t :: Place(after, u, t) && At(after, u)[t] == q {
      var u, t := StillPlaced(lists, all, s, q);
    }
    forall u, t, v, w | Place(after, u, t) && Place(after, v, w) && At(after, u)[t] == At(after, v)[w] ensures u == v && t == w {
      StillThere(lists, all, s, u, t);
      StillThere(lists, all, s, v, w);
    }
    hide At, Place;
  }

  /** A place after p was added at the end of s: the new one or an old one. */
  lemma OldOrNew(lists: Lists, s: Slot, p: Packet, u: Slot, t: int)
    ensures var after := lists[s := At(lists, s) + [p]];
            Place(after, u, t) <==> Place(lists, u, t) || (u == s && t == |At(lists, s)|)
    ensures var after := lists[s := At(lists, s) + [p]];
            Place(after, u, t) ==> At(after, u)[t] == if u == s && t == |At(lists, s)| then p else At(lists, u)[t]
  {
  }

  lemma Pushed(lists: Lists, all: set<Packet>, s: Slot, p: Packet)
    requires Partition(lists, all) && p !in all
    ensures Partition(lists[s := At(lists, s) + [p]], all + {p})
  {
    var after, n := lists[s := At(lists, s) + [p]], |At(lists, s)|;
    forall u, t | Place(after, u, t) ensures At(after, u)[t] in all + {p} {
      OldOrNew(lists, s, p, u, t);
    }
    forall q | q in all + {p} ensures exists u, t :: Place(after, u, t) && At(after, u)[t] == q {
      if q == p {
        OldOrNew(lists, s, p, s, n);
      } else {
        var u, t :| Place(lists, u, t) && At(lists, u)[t] == q;
        OldOrNew(lists, s, p, u, t);
      }
    }
    forall u, t, v, w | Place(after, u, t) && Place(after, v, w) && At(after, u)[t] == At(after, v)[w] ensures u == v && t == w {
      OldOrNew(lists, s, p, u, t);
      OldOrNew(lists, s, p, v, w);
    }
    hide At, Place;
  }

  // ----- links -----

  /** The links of the lists are what the lists say; a device's packet may have any link. */
  ghost predicate Linked(lists: Lists, packets: set<Packet>)
    reads packets`link
  {
    forall s, t :: Place(lists, s, t) ==> At(lists, s)[t] in packets && (s.Pending? || At(lists, s)[t].link == After(At(lists, s), t))
  }

  lemma LinkAt(lists: Lists, packets: set<Packet>, s: Slot, t: int)
    requires Linked(lists, packets) && Place(lists, s, t)
    ensures At(lists, s)[t] in packets && (s.Pending? || At(lists, s)[t].link == After(At(lists, s), t))
  {
  }

  /** Taking the first packet leaves the links of the rest as they were. */
  lemma LinkedPopped(lists: Lists, packets: set<Packet>, s: Slot)
    requires Linked(lists, packets) && At(lists, s) != []
    ensures Linked(lists[s := At(lists, s)[1..]], packets)
    ensures At(lists, s)[0] in packets
    ensures !s.Pending? ==> At(lists, s)[0].link == First(At(lists, s)[1..])
  {
    var after := lists[s := At(lists, s)[1..]];
    assert Place(lists, s, 0);
    forall u, t | Place(after, u, t)
      ensures At(after, u)[t] in packets && (u.Pending? || At(after, u)[t].link == After(At(after, u), t))
    {
      LinkAt(lists, packets, u, if u == s then t + 1 else t);
    }
  }

  /** A device keeps its packet as it is. */
  lemma LinkedPending(lists: Lists, packets: set<Packet>, s: Slot, p: Packet)
    requires Linked(lists, packets) && p in packets && s.Pending?
    ensures Linked(lists[s := [p]], packets)
  {
    var after := lists[s := [p]];
    forall u, t | Place(after, u, t)
      ensures At(after, u)[t] in packets && (u.Pending? || At(after, u)[t].link == After(At(after, u), t))
    {
      if u != s {
        LinkAt(lists, packets, u, t);
      }
    }
  }

  /** `addTo`: the packet becomes the last of the slot's list. */
  method AddTo(p: Packet, queue: Packet?, ghost lists: Lists, ghost s: Slot, ghost packets: set<Packet>) returns (head: Packet)
    requires Linked(lists, packets) && Partition(lists, packets - {p}) && p in packets && !s.Pending?
    requires queue == First(At(lists, s))
    modifies packets`link
    ensures head == First(At(lists, s) + [p])
    ensures Linked(lists[s := At(lists, s) + [p]], packets)
  {
    ghost var l := At(lists, s);
    NotPlaced(lists, packets, p);
    p.link := null;
    assert LinksWithout(lists, packets, p);
    if queue == null {
      LinkedPushed(lists, packets, s, p);
      return p;
    }
    hide LinksWithout, Partition;
    ghost var t := 0;
    var next := queue;
    while next.link != null
      modifies {}
      invariant 0 <= t < |l| && next == l[t]
      invariant LinksWithout(lists, packets, p)
      decreases |l| - t
    {
      LinkWithoutAt(lists, packets, p, s, t);
      next := next.link;
      t := t + 1;
    }
    LinkWithoutAt(lists, packets, p, s, t);
    head := queue;
    WriteLast(p, next, lists, s, packets);
  }

  lemma NotPlaced(lists: Lists, packets: set<Packet>, p: Packet)
    requires Partition(lists, packets - {p})
    ensures forall u, t :: Place(lists, u, t) ==> At(lists, u)[t] != p
  {
  }

  /** All links are right, and p is in no list. */
  ghost predicate LinksWithout(lists: Lists, packets: set<Packet>, p: Packet)
    reads packets`link
  {
    Linked(lists, packets) && p in packets && p.link == null && forall u, t :: Place(lists, u, t) ==> At(lists, u)[t] != p
  }

  lemma LinkWithoutAt(lists: Lists, packets: set<Packet>, p: Packet, s: Slot, t: int)
    requires LinksWithout(lists, packets, p) && Place(lists, s, t)
    ensures At(lists, s)[t] in packets && At(lists, s)[t] != p && (s.Pending? || At(lists, s)[t].link == After(At(lists, s), t))
  {
  }

  /** The last packet of the list gets the new link. */
  method WriteLast(p: Packet, last: Packet, ghost lists: Lists, ghost s: Slot, ghost packets: set<Packet>)
    requires LinksWithout(lists, packets, p) && Partition(lists, packets - {p}) && !s.Pending?
    requires At(lists, s) != [] && last == At(lists, s)[|At(lists, s)| - 1] && last in packets
    modifies last`link
    ensures Linked(lists[s := At(lists, s) + [p]], packets)
  {
    ghost var n := |At(lists, s)| - 1;
    assert Place(lists, s, n);
    last.link := p;
    forall u, t | Place(lists, u, t) && !u.Pending?
      ensures At(lists, u)[t].link == if u == s && t == n then p else After(At(lists, u), t)
    {
      assert At(lists, u)[t] == last <==> u == s && t == n;
    }
    LinkedPushed(lists, packets, s, p);
  }

  lemma LinkedPushed(lists: Lists, packets: set<Packet>, s: Slot, p: Packet)
    requires p in packets && p.link == null && !s.Pending?
    requires forall u, t :: Place(lists, u, t) ==> At(lists, u)[t] in packets && At(lists, u)[t] != p
    requires forall u, t :: Place(lists, u, t) && !u.Pending? ==>
               At(lists, u)[t].link == if u == s && t == |At(lists, s)| - 1 then p else After(At(lists, u), t)
    ensures Linked(lists[s := At(lists, s) + [p]], packets)
  {
    var l := At(lists, s);
    var after := lists[s := l + [p]];
    forall u, t | Place(after, u, t)
      ensures At(after, u)[t] in packets && (u.Pending? || At(after, u)[t].link == After(At(after, u), t))
    {
      if u != s || t < |l| {
        assert Place(lists, u, t);
      }
    }
  }

  /** A packet in no list loses its link. */
  method ClearLink(p: Packet, ghost lists: Lists, ghost packets: set<Packet>)
    requires Linked(lists, packets) && Partition(lists, packets - {p}) && p in packets
    modifies p`link
    ensures LinksWithout(lists, packets, p)
  {
    NotPlaced(lists, packets, p);
    p.link := null;
  }

  lemma LinkedAlone(lists: Lists, packets: set<Packet>, s: Slot, p: Packet)
    requires LinksWithout(lists, packets, p) && At(lists, s) == []
    ensures Linked(lists[s := At(lists, s) + [p]], packets)
  {
    var after := lists[s := At(lists, s) + [p]];
    forall u, t | Place(after, u, t)
      ensures At(after, u)[t] in packets && (u.Pending? || At(after, u)[t].link == After(At(after, u), t))
    {
      if u != s {
        LinkWithoutAt(lists, packets, p, u, t);
      }
    }
  }

  lemma WithoutIsLinked(lists: Lists, packets: set<Packet>, p: Packet)
    requires LinksWithout(lists, packets, p)
    ensures Linked(lists, packets)
  {
  }

  // ----- a list from outside -----

  function ToSet(l: seq<Packet>): set<Packet> {
    set p | p in l
  }

  /** A proper list of packets that are new here. */
  ghost predicate Listed(queue: Packet?, l: seq<Packet>, packets: set<Packet>)
    reads l
  {
    && queue == First(l)
    && (forall i, j :: 0 <= i < j < |l| ==> l[i] != l[j])
    && (forall i :: 0 <= i < |l| ==> l[i] !in packets && l[i].link == After(l, i) && PayloadFit(l[i]))
  }

  ghost predicate PayloadFit(p: Packet)
    reads p`a1, p`a2
  {
    |p.a2| == DATA_SIZE && (p.kind.WorkKind? ==> p.a1 >= 0)
  }

  lemma PartitionMore(lists: Lists, all: set<Packet>, s: Slot, l: seq<Packet>)
    requires Partition(lists, all) && At(lists, s) == []
    requires (forall i, j :: 0 <= i < j < |l| ==> l[i] != l[j]) && forall i :: 0 <= i < |l| ==> l[i] !in all
    ensures Partition(lists[s := l], all + ToSet(l))
  {
    var after := lists[s := l];
    assert forall u, t :: Place(after, u, t) ==> if u == s then At(after, u)[t] == l[t] else Place(lists, u, t) && At(after, u) == At(lists, u);
    forall p | p in all + ToSet(l) ensures exists u, t :: Place(after, u, t) && At(after, u)[t] == p {
      if p in all {
        var u, t :| Place(lists, u, t) && At(lists, u)[t] == p;
        assert Place(after, u, t);
      } else {
        var t :| 0 <= t < |l| && l[t] == p;
        assert Place(after, s, t);
      }
    }
  }

  lemma LinkedMore(lists: Lists, packets: set<Packet>, s: Slot, queue: Packet?, l: seq<Packet>)
    requires Linked(lists, packets) && At(lists, s) == [] && Listed(queue, l, packets)
    ensures Linked(lists[s := l], packets + ToSet(l))
  {
    var after := lists[s := l];
    forall u, t | Place(after, u, t)
      ensures At(after, u)[t] in packets + ToSet(l) && (u.Pending? || At(after, u)[t].link == After(At(after, u), t))
    {
      if u != s {
        LinkAt(lists, packets, u, t);
      }
    }
  }
}
