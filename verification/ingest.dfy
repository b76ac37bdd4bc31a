/**
 * Feeding a stream of records to the controller: the body of the read loop
 * (decode one record, apply it) without the device handle or the printing.
 */
module Ingest {
  import opened Wrappers
  import opened InputEvent
  import opened Sixaxis

  /**
   * Applies `es` in order, starting from `s`. A field that no event of the
   * stream targets keeps its starting value.
   */
  function Run(s: State, es: seq<Event>): (r: State)
    ensures forall b :: (forall i :: 0 <= i < |es| ==> Target(es[i]) != Some(ButtonField(b))) ==>
                          Pressed(r, b) == Pressed(s, b)
    ensures forall a :: (forall i :: 0 <= i < |es| ==> Target(es[i]) != Some(AxisField(a))) ==>
                          AxisValue(r, a) == AxisValue(s, a)
    decreases |es|
  {
    if |es| == 0 then s else Run(Update(s, es[0]), es[1..])
  }

  /** The last event of `es` that writes field `f`, if any. */
  function LastWrite(es: seq<Event>, f: Field): (r: Option<Event>)
    ensures r == None <==> forall i :: 0 <= i < |es| ==> Target(es[i]) != Some(f)
    ensures r.Some? ==> exists i :: 0 <= i < |es| && es[i] == r.value && Target(es[i]) == Some(f) &&
                                    forall j :: i < j < |es| ==> Target(es[j]) != Some(f)
  {
    if |es| == 0 then None
    else
      match LastWrite(es[1..], f)
      case Some(e) =>
        var i :| 0 <= i < |es[1..]| && es[1..][i] == e && Target(es[1..][i]) == Some(f) &&
                 forall j :: i < j < |es[1..]| ==> Target(es[1..][j]) != Some(f);
        assert es[i + 1] == e;
        Some(e)
      case None =>
        if Target(es[0]) == Some(f) then Some(es[0]) else None
  }

  /**
   * After a run, each button reads as the last event writing it set it (held
   * exactly when that value was 1), or as it started if no event wrote it.
   */
  lemma {:induction false} RunButton(s: State, es: seq<Event>, b: Button)
    ensures Pressed(Run(s, es), b) ==
      match LastWrite(es, ButtonField(b))
      case Some(e) => e.value == 1
      case None => Pressed(s, b)
    decreases |es|
  {
    if |es| > 0 {
      RunButton(Update(s, es[0]), es[1..], b);
    }
  }

  /**
   * After a run, each axis holds the raw value of the last event writing it,
   * or its starting value if no event wrote it.
   */
  lemma {:induction false} RunAxis(s: State, es: seq<Event>, a: Axis)
    ensures AxisValue(Run(s, es), a) ==
      match LastWrite(es, AxisField(a))
      case Some(e) => e.value
      case None => AxisValue(s, a)
    decreases |es|
  {
    if |es| > 0 {
      RunAxis(Update(s, es[0]), es[1..], a);
    }
  }

  /** From a fresh controller, a field never written keeps its zero value. */
  lemma UnwrittenStaysIdle(es: seq<Event>)
    ensures forall b :: LastWrite(es, ButtonField(b)) == None ==> !Pressed(Run(New(), es), b)
    ensures forall a :: LastWrite(es, AxisField(a)) == None ==> AxisValue(Run(New(), es), a) == 0
  {
    forall b | LastWrite(es, ButtonField(b)) == None {
      RunButton(New(), es, b);
    }
    forall a | LastWrite(es, AxisField(a)) == None {
      RunAxis(New(), es, a);
    }
  }

  /** Any number of synchronisation events leave the snapshot unchanged. */
  lemma {:induction false} RunSyncOnly(s: State, es: seq<Event>)
    requires forall i :: 0 <= i < |es| ==> es[i].typ == TypeSync
    ensures Run(s, es) == s
  {
    if |es| > 0 {
      SyncIsNoOp(s, es[0]);
      RunSyncOnly(s, es[1..]);
    }
  }

  /** The records a byte stream holds, in order, up to the first short read. */
  function DecodeAll(bs: seq<Byte>): (es: seq<Event>)
    ensures |es| == |bs| / EventSize
    decreases |bs|
  {
    match Decode(bs)
    case Failure(_) => []
    case Success((e, rest)) => [e] + DecodeAll(rest)
  }

  /** The bytes of `es`, one record after another. */
  function EncodeAll(es: seq<Event>): (bs: seq<Byte>)
    ensures |bs| == EventSize * |es|
  {
    if |es| == 0 then [] else Encode(es[0]) + EncodeAll(es[1..])
  }

  /** Decoding a stream of encoded records gives them back; a trailing partial record is dropped. */
  lemma {:induction false} DecodeAllEncodeAll(es: seq<Event>, tail: seq<Byte>)
    requires |tail| < EventSize
    ensures DecodeAll(EncodeAll(es) + tail) == es
  {
    if |es| > 0 {
      var bs := EncodeAll(es) + tail;
      assert bs == Encode(es[0]) + (EncodeAll(es[1..]) + tail);
      DecodeEncode(es[0], EncodeAll(es[1..]) + tail);
      DecodeAllEncodeAll(es[1..], tail);
    }
  }

  /**
   * The read loop over a finite stream: decodes one record at a time and
   * applies it, stopping at the first short read. Returns the final snapshot
   * and the trailing partial record.
   */
  method Ingest(s: State, bs: seq<Byte>) returns (r: State, rest: seq<Byte>)
    ensures |rest| < EventSize
    ensures bs == EncodeAll(DecodeAll(bs)) + rest
    ensures r == Run(s, DecodeAll(bs))
  {
    r, rest := s, bs;
    ghost var done: seq<Event> := [];
    while true
      invariant bs == EncodeAll(done) + rest
      invariant DecodeAll(bs) == done + DecodeAll(rest)
      invariant Run(r, DecodeAll(rest)) == Run(s, DecodeAll(bs))
      decreases |rest|
    {
      var d := Decode(rest);
      if d.Failure? {
        assert DecodeAll(rest) == [];
        assert done + [] == done;
        break;
      }
      var (e, next) := d.value;
      StepLemma(s, bs, done, r, rest, e, next);
      done := done + [e];
      r, rest := Update(r, e), next;
    }
  }

  lemma DecodeAllCons(rest: seq<Byte>, e: Event, next: seq<Byte>)
    requires Decode(rest) == Success((e, next))
    ensures DecodeAll(rest) == [e] + DecodeAll(next)
  {
  }

  /** One iteration of the read loop keeps the loop's accounting of the stream. */
  lemma StepLemma(s: State, bs: seq<Byte>, done: seq<Event>, r: State, rest: seq<Byte>,
                  e: Event, next: seq<Byte>)
    requires Decode(rest) == Success((e, next))
    requires bs == EncodeAll(done) + rest
    requires DecodeAll(bs) == done + DecodeAll(rest)
    requires Run(r, DecodeAll(rest)) == Run(s, DecodeAll(bs))
    ensures bs == EncodeAll(done + [e]) + next
    ensures DecodeAll(bs) == (done + [e]) + DecodeAll(next)
    ensures Run(Update(r, e), DecodeAll(next)) == Run(s, DecodeAll(bs))
  {
    DecodeAllCons(rest, e, next);
    StepBytes(bs, done, rest, e, next);
    SnocAssoc(done, e, DecodeAll(next));
    RunCons(r, e, DecodeAll(next));
  }

  lemma SnocAssoc(done: seq<Event>, e: Event, tail: seq<Event>)
    ensures done + ([e] + tail) == (done + [e]) + tail
  {
  }

  lemma RunCons(r: State, e: Event, tail: seq<Event>)
    ensures Run(r, [e] + tail) == Run(Update(r, e), tail)
  {
    assert ([e] + tail)[1..] == tail;
  }

  lemma StepBytes(bs: seq<Byte>, done: seq<Event>, rest: seq<Byte>, e: Event, next: seq<Byte>)
    requires Decode(rest) == Success((e, next))
    requires bs == EncodeAll(done) + rest
    ensures bs == EncodeAll(done + [e]) + next
  {
    EncodeDecode(rest);
    EncodeAllSnoc(done, e);
  }

  lemma {:induction false} EncodeAllSnoc(es: seq<Event>, e: Event)
    ensures EncodeAll(es + [e]) == EncodeAll(es) + Encode(e)
  {
    if |es| > 0 {
      assert (es + [e])[1..] == es[1..] + [e];
      EncodeAllSnoc(es[1..], e);
    } else {
      assert es + [e] == [e];
    }
  }
}
