/**
 outRespPool and hBTxPool of client/pool.go as objects: Get, Put and the drain loop change the stored
 channels in place.  They are proved to be the pool operations of the shared system.
 */
module ChannelPools {
  import opened Structs
  import opened RangeProtocol
  import opened SharedPools

  class ChannelPool<T> {
    var stor: seq<ChanId>                // the channel of channels
    var heap: map<ChanId, Chan<T>>       // every channel made so far
    var next: ChanId                     // an address no channel has
    const poolCap: nat
    const chanCap: nat

    ghost predicate Valid() reads this {
      && |stor| <= poolCap
      && (forall i :: 0 <= i < |stor| ==> stor[i] in heap && !heap[stor[i]].closed)
      && (forall i, j :: 0 <= i < j < |stor| ==> stor[i] != stor[j])
      && (forall c :: c in heap ==> c < next)
    }

    ghost function AsPool(): Pool<T> reads this { Pool(stor, heap) }

    constructor (poolCap: nat, chanCap: nat)
      ensures Valid() && AsPool() == Pool([], map[]) && this.poolCap == poolCap && this.chanCap == chanCap
    {
      this.poolCap, this.chanCap := poolCap, chanCap;
      stor, heap, next := [], map[], 0;
    }

    /** Receives until the channel is empty. */
    method Drain(c: ChanId)
      requires c in heap
      modifies this`heap
      ensures heap == old(heap)[c := old(heap)[c].(buf := [])]
    {
      while heap[c].buf != []
        invariant c in heap && heap == old(heap)[c := old(heap)[c].(buf := heap[c].buf)]
        decreases |heap[c].buf|
      {
        heap := heap[c := heap[c].(buf := heap[c].buf[1..])];
      }
    }

    /** An open, empty channel that the pool no longer holds: the oldest it held, drained, or a new one. */
    method Get() returns (c: ChanId)
      requires Valid()
      modifies this
      ensures Valid()
      ensures CanGet(old(AsPool()), old(next)) && c == GetId(old(AsPool()), old(next))
      ensures AsPool() == SharedPools.Get(old(AsPool()), chanCap, old(next))
      ensures c in heap && c !in stor && heap[c].buf == [] && !heap[c].closed
      ensures old(stor) == [] ==> c !in old(heap) && heap == old(heap)[c := Chan([], chanCap, false)] && stor == []
      ensures old(stor) != [] ==>
                c == old(stor)[0] && stor == old(stor)[1..] && heap == old(heap)[c := old(heap)[c].(buf := [])]
    {
      if stor != [] {
        c := stor[0];
        stor := stor[1..];
        Drain(c);
      } else {
        c := next;
        heap := heap[c := Chan([], chanCap, false)];
        next := next + 1;
      }
    }

    /** Keeps the channel for a later Get, or closes it when the pool is full.  None is the nil channel: it is kept like
        any other, under an address of its own, and closing it panics.  Closing a closed channel panics too, so the
        caller gives back an open one, and only once. */
    method Put(or: Option<ChanId>) returns (panics: bool)
      requires Valid() && (or.Some? ==> or.value in heap && or.value !in stor && !heap[or.value].closed)
      modifies this
      ensures Valid() && (panics <==> or.None? && old(|stor|) >= poolCap)
      ensures or.Some? ==> AsPool() == SharedPools.Put(old(AsPool()), poolCap, or.value)
      ensures or.Some? ==> if old(|stor|) < poolCap then stor == old(stor) + [or.value] && heap == old(heap)
                           else stor == old(stor) && heap[or.value].closed
      ensures or.None? && !panics ==>
                stor == old(stor) + [old(next)] && heap == old(heap)[old(next) := Chan([], 0, false)]
      ensures panics ==> stor == old(stor) && heap == old(heap)
    {
      panics := false;
      if |stor| < poolCap {
        var c := if or.Some? then or.value else next;
        if or.None? {
          heap := heap[c := Chan([], 0, false)];
          next := next + 1;
        }
        stor := stor + [c];
      } else if or.Some? {
        heap := heap[or.value := heap[or.value].(closed := true)];
      } else {
        panics := true;
      }
    }
  }
}
