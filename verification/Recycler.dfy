/** The small block recycler: each thread keeps up to two blocks that were given
    back. How large a block is, is written into the block itself: into the byte
    after what the client asked for while it is out, into the first byte while
    it is cached. A block may be given back on another thread than it was taken. */
module Recycler {
  newtype byte = x: int | 0 <= x < 256

  type Block = array<byte>

  const UCHAR_MAX: nat := 255

  /** What one thread keeps. */
  datatype Slots = Slots(memory: array?<byte>, next: array?<byte>)

  /** Where a block is: in the first or second slot of a thread, with a client
      that asked for so many bytes, or returned to the system. */
  datatype Place = First(t: nat) | Second(t: nat) | Out(size: nat) | Freed

  /** A cached block says how many bytes it has to offer. */
  predicate Tagged(b: Block)
    reads b
  {
    b.Length > 0 && b[0] as int + 1 == b.Length
  }

  /** A block that is out has room for its tag, and a tag if it may be cached. */
  predicate HasTag(b: Block, size: nat)
    reads b
  {
    size < b.Length && (size <= UCHAR_MAX ==> b[size] as int + 1 == b.Length)
  }

  class Recyclers {
    var slots: seq<Slots>
    ghost var place: map<Block, Place>

    /** Every block there has ever been is in exactly one place, and its tag is
        where it has to be. */
    ghost predicate Valid()
      reads this, place.Keys
    {
      && (forall b | b in place :: PlaceOk(b, place[b]))
      && (forall t | 0 <= t < |slots| :: SlotsOk(t))
    }

    ghost predicate PlaceOk(b: Block, p: Place)
      reads this, b
    {
      match p
      case First(t) => t < |slots| && slots[t].memory == b && Tagged(b)
      case Second(t) => t < |slots| && slots[t].next == b && Tagged(b)
      case Out(size) => HasTag(b, size)
      case Freed => true
    }

    /** The second slot is used only if the first is. */
    ghost predicate SlotsOk(t: nat)
      requires t < |slots|
      reads this
    {
      var memory, next := slots[t].memory, slots[t].next;
      && (next != null ==> memory != null)
      && (memory != null ==> memory in place && place[memory] == First(t))
      && (next != null ==> next in place && place[next] == Second(t))
    }

    constructor (threads: nat)
      ensures Valid() && place == map[] && |slots| == threads
    {
      slots := seq(threads, t => Slots(null, null));
      place := map[];
    }

    /** Where all blocks are after an allocation: what was in the first slot is
        out again if it is large enough, and else freed; what was in the second
        slot is in the first; and a new block is there only if one was needed. */
    ghost function Moved(t: nat): map<Block, Place>
      requires t < |slots|
      reads this
    {
      var memory, next := slots[t].memory, slots[t].next;
      var rest := if memory == null then place else place[memory := Freed];
      if next == null then rest else rest[next := First(t)]
    }

    /** Yields a block of more than `size` bytes with its tag in place, that no
        client has: the cached one if it fits, or else a new one. */
    method Allocate(t: nat, size: nat) returns (p: Block)
      requires Valid() && t < |slots|
      modifies this, slots[t].memory
      ensures Valid() && size < p.Length && HasTag(p, size)
      ensures p !in old(place) || old(place)[p] == First(t)
      ensures old(slots[t].memory) != null && old(slots[t].memory).Length > size ==> p == old(slots[t].memory)
      ensures old(slots[t].memory) == null || old(slots[t].memory).Length <= size ==> fresh(p) && p.Length == size + 1
      ensures old(slots[t].memory) != null && p != old(slots[t].memory) ==>
                old(slots[t].memory) in place && place[old(slots[t].memory)] == Freed
      ensures old(slots[t].next) != null ==> old(slots[t].next) in place && place[old(slots[t].next)] == First(t)
      ensures forall b | b in old(place) && b != p && b != old(slots[t].memory) && b != old(slots[t].next) :: b in place && place[b] == old(place)[b]
      ensures place == old(Moved(t))[p := Out(size)]
      ensures slots == old(slots)[t := Slots(old(slots[t].next), null)]
    {
      assert SlotsOk(t);
      if slots[t].memory != null {
        p := slots[t].memory;
        assert PlaceOk(p, place[p]);
        TakeFirst(t);
        if p[0] as int >= size {
          label taken:
          p[size] := p[0];
          place := place[p := Out(size)];
          HandedOut@taken(p, size);
          return;
        }
      }
      label allocating:
      p := new byte[size + 1];
      p[size] := if size <= UCHAR_MAX then size as byte else 0;
      place := place[p := Out(size)];
      HandedOut@allocating(p, size);
    }

    /** A block that is new, or in nobody's slots, may be given to a client. */
    twostate lemma HandedOut(new p: Block, size: nat)
      requires old(Valid()) && slots == old(slots) && place == old(place)[p := Out(size)] && HasTag(p, size)
      requires p in old(place) ==> old(place)[p] == Freed
      requires forall b | b in old(place) && b != p :: unchanged(b)
      ensures Valid()
    {
      assert forall b | b in place && b != p :: b in old(place);
      forall b | b in old(place) && b != p
        ensures PlaceOk(b, place[b])
      {
        assert old(PlaceOk(b, place[b]));
      }
      forall u | 0 <= u < |slots|
        ensures SlotsOk(u)
      {
        assert old(SlotsOk(u));
      }
    }

    /** The first slot is emptied into the hands of the caller, and the second
        moves up. */
    method TakeFirst(t: nat)
      requires Valid() && t < |slots| && slots[t].memory != null
      modifies this
      ensures Valid() && place == old(Moved(t)) && slots == old(slots)[t := Slots(old(slots[t].next), null)]
    {
      assert SlotsOk(t);
      place := Moved(t);
      slots := slots[t := Slots(slots[t].next, null)];
      assert place.Keys == old(place).Keys;
      forall b | b in old(place)
        ensures PlaceOk(b, place[b])
      {
        assert old(PlaceOk(b, place[b]));
      }
      forall u | 0 <= u < |slots|
        ensures SlotsOk(u)
      {
        assert old(SlotsOk(u));
        assert u != t && slots[u].memory != null ==> old(place)[slots[u].memory] == First(u);
        assert u != t && slots[u].next != null ==> old(place)[slots[u].next] == Second(u);
      }
    }

    /** Takes back a block: into the first free slot, or else it is freed. A client
        must return it with the size it asked for. */
    method Deallocate(t: nat, p: array?<byte>, size: nat)
      requires Valid() && t < |slots|
      requires p != null ==> p in place && place[p] == Out(size)
      modifies this, p
      ensures Valid()
      ensures p == null ==> place == old(place) && slots == old(slots)
      ensures p != null ==>
                if size < 256 && old(slots[t].memory) == null then
                  place == old(place)[p := First(t)] && slots == old(slots)[t := Slots(p, old(slots[t].next))]
                else if size < 256 && old(slots[t].next) == null then
                  place == old(place)[p := Second(t)] && slots == old(slots)[t := Slots(old(slots[t].memory), p)]
                else
                  place == old(place)[p := Freed] && slots == old(slots)
    {
      if p != null {
        assert PlaceOk(p, place[p]) && SlotsOk(t);
        if size <= UCHAR_MAX {
          if slots[t].memory == null {
            p[0] := p[size];
            slots := slots[t := slots[t].(memory := p)];
            place := place[p := First(t)];
            Kept(p);
            return;
          }
          if slots[t].next == null {
            p[0] := p[size];
            slots := slots[t := slots[t].(next := p)];
            place := place[p := Second(t)];
            Kept(p);
            return;
          }
        }
        place := place[p := Freed];
        Kept(p);
      }
    }

    /** Putting one block elsewhere changes nothing for the others. */
    twostate lemma Kept(p: Block)
      requires old(Valid()) && p in old(place) && p in place && place == old(place)[p := place[p]]
      requires |slots| == |old(slots)| && old(place)[p].Out?
      requires forall b | b in place && b != p :: old(allocated(b)) && unchanged(b)
      requires PlaceOk(p, place[p])
      requires place[p] == Freed ==> slots == old(slots)
      requires place[p].First? ==> var t := place[p].t; t < |slots| && old(slots[t].memory) == null && slots == old(slots)[t := old(slots[t]).(memory := p)]
      requires place[p].Second? ==> var t := place[p].t; t < |slots| && old(slots[t].next) == null && old(slots[t].memory) != null && slots == old(slots)[t := old(slots[t]).(next := p)]
      requires !place[p].Out?
      ensures Valid()
    {
      forall b | b in place
        ensures PlaceOk(b, place[b])
      {
        assert b != p ==> old(PlaceOk(b, place[b]));
      }
      forall u | 0 <= u < |slots|
        ensures SlotsOk(u)
      {
        assert old(SlotsOk(u));
      }
    }

    /** A client writes the bytes that it asked for. */
    method Write(p: Block, size: nat, i: nat, value: byte)
      requires Valid() && p in place && place[p] == Out(size) && i < size && i < p.Length
      modifies p
      ensures Valid() && p[i] == value
    {
      p[i] := value;
    }
  }
}
