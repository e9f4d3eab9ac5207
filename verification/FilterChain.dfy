/** How a filter chain is built and torn down: the two lists of ActiveMessage, a dual filter being
    in both, and the destructor of active_message.cc. */
module FilterChain {
  /** A wrapper around a filter, which is known by a number here. */
  datatype Entry = Entry(filter: nat, dual: bool)

  /** The calls of FilterChainFactoryCallbacks: addDecoderFilter, addEncoderFilter, addFilter. */
  datatype Registration = Decoder(filter: nat) | Encoder(filter: nat) | Both(filter: nat)

  function DecodersOf(rs: seq<Registration>): seq<Entry> {
    if rs == [] then []
    else
      var r := rs[|rs| - 1];
      DecodersOf(rs[..|rs| - 1]) + if r.Encoder? then [] else [Entry(r.filter, r.Both?)]
  }

  function EncodersOf(rs: seq<Registration>): seq<Entry> {
    if rs == [] then []
    else
      var r := rs[|rs| - 1];
      EncodersOf(rs[..|rs| - 1]) + if r.Decoder? then [] else [Entry(r.filter, r.Both?)]
  }

  function FiltersOf(rs: seq<Registration>): seq<nat> {
    if rs == [] then [] else FiltersOf(rs[..|rs| - 1]) + [rs[|rs| - 1].filter]
  }

  /** The filters of a list of entries, leaving out dual ones if `once`. */
  function Destroyed(es: seq<Entry>, once: bool): seq<nat> {
    if es == [] then []
    else
      var e := es[|es| - 1];
      Destroyed(es[..|es| - 1], once) + if once && e.dual then [] else [e.filter]
  }

  lemma DestroyedOneMore(es: seq<Entry>, e: Entry, once: bool)
    ensures Destroyed(es + [e], once) == Destroyed(es, once) + if once && e.dual then [] else [e.filter]
  {
    assert (es + [e])[..|es|] == es;
  }

  lemma AddOne(d: seq<nat>, n: seq<nat>, f: seq<nat>, x: nat)
    requires multiset(d + n) == multiset(f)
    ensures multiset(d + [x] + n) == multiset(f + [x]) && multiset(d + (n + [x])) == multiset(f + [x])
  {
    assert multiset(d + [x] + n) == multiset(d) + multiset{x} + multiset(n);
    assert d + (n + [x]) == d + n + [x];
  }

  /** What the two lists are after one registration more, and what they destroy. */
  lemma RegisteredOneMore(rs: seq<Registration>)
    requires rs != []
    ensures
      var before, r := rs[..|rs| - 1], rs[|rs| - 1];
      var d, n := Destroyed(DecodersOf(before), false), Destroyed(EncodersOf(before), true);
      && Destroyed(DecodersOf(rs), false) == (if r.Encoder? then d else d + [r.filter])
      && Destroyed(EncodersOf(rs), true) == (if r.Encoder? then n + [r.filter] else n)
  {
    var before, r := rs[..|rs| - 1], rs[|rs| - 1];
    var e := Entry(r.filter, r.Both?);
    DestroyedOneMore(DecodersOf(before), e, false);
    DestroyedOneMore(EncodersOf(before), e, true);
    assert DecodersOf(before) + [] == DecodersOf(before) && EncodersOf(before) + [] == EncodersOf(before);
    var n := Destroyed(EncodersOf(before), true);
    assert n + [] == n;
  }

  /** Every filter registered is destroyed as often as it is registered, a dual one not twice. */
  lemma {:induction false} DestroysEachOnce(rs: seq<Registration>)
    ensures
      multiset(Destroyed(DecodersOf(rs), false) + Destroyed(EncodersOf(rs), true)) == multiset(FiltersOf(rs))
  {
    if rs != [] {
      var before, r := rs[..|rs| - 1], rs[|rs| - 1];
      DestroysEachOnce(before);
      RegisteredOneMore(rs);
      AddOne(Destroyed(DecodersOf(before), false), Destroyed(EncodersOf(before), true), FiltersOf(before), r.filter);
    }
  }

  class Filters {
    var decoders: seq<Entry>
    var encoders: seq<Entry>
    ghost var registered: seq<Registration>

    ghost predicate Valid()
      reads this
    {
      decoders == DecodersOf(registered) && encoders == EncodersOf(registered)
    }

    constructor ()
      ensures Valid() && registered == []
    {
      decoders, encoders, registered := [], [], [];
    }

    method AddDecoderFilterWorker(filter: nat, dual: bool)
      modifies this`decoders
      ensures decoders == old(decoders) + [Entry(filter, dual)]
    {
      decoders := decoders + [Entry(filter, dual)];
    }

    method AddEncoderFilterWorker(filter: nat, dual: bool)
      modifies this`encoders
      ensures encoders == old(encoders) + [Entry(filter, dual)]
    {
      encoders := encoders + [Entry(filter, dual)];
    }

    method AddDecoderFilter(filter: nat)
      requires Valid()
      modifies this
      ensures Valid() && registered == old(registered) + [Decoder(filter)]
    {
      AddDecoderFilterWorker(filter, false);
      registered := registered + [Decoder(filter)];
      assert registered[..|registered| - 1] == old(registered);
    }

    method AddEncoderFilter(filter: nat)
      requires Valid()
      modifies this
      ensures Valid() && registered == old(registered) + [Encoder(filter)]
    {
      AddEncoderFilterWorker(filter, false);
      registered := registered + [Encoder(filter)];
      assert registered[..|registered| - 1] == old(registered);
    }

    method AddFilter(filter: nat)
      requires Valid()
      modifies this
      ensures Valid() && registered == old(registered) + [Both(filter)]
    {
      AddDecoderFilterWorker(filter, true);
      AddEncoderFilterWorker(filter, true);
      registered := registered + [Both(filter)];
      assert registered[..|registered| - 1] == old(registered);
    }

    /** The loops of the destructor, with the onDestroy calls they make: one for each filter. */
    method OnDestroyAll() returns (destroyed: seq<nat>)
      requires Valid()
      ensures multiset(destroyed) == multiset(FiltersOf(registered))
    {
      destroyed := [];
      var i := 0;
      while i < |decoders|
        invariant 0 <= i <= |decoders|
        invariant destroyed == Destroyed(decoders[..i], false)
      {
        DestroyedOneMore(decoders[..i], decoders[i], false);
        assert decoders[..i + 1] == decoders[..i] + [decoders[i]];
        destroyed := destroyed + [decoders[i].filter];
        i := i + 1;
      }
      assert decoders[..i] == decoders;
      ghost var first := destroyed;
      assert first + [] == first;
      i := 0;
      while i < |encoders|
        invariant 0 <= i <= |encoders|
        invariant destroyed == first + Destroyed(encoders[..i], true)
      {
        DestroyedOneMore(encoders[..i], encoders[i], true);
        assert encoders[..i + 1] == encoders[..i] + [encoders[i]];
        if !encoders[i].dual {
          destroyed := destroyed + [encoders[i].filter];
        }
        i := i + 1;
      }
      assert encoders[..i] == encoders;
      DestroysEachOnce(registered);
    }
  }
}
