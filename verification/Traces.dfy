/** The trace builder and the bytes it counts for the peer
    (class Trace of tools/zmuxwire/tracedsl.py, lines 354-447). */
module Traces {
  import opened Base
  import opened Varint
  import opened Registry
  import opened Frames
  import opened Fields
  import opened Canonical
  import opened Records
  import opened Trees
  import opened Dicts
  import opened Placeholders
  import opened PlaceholderLengths
  import opened DictForms
  import opened Runner
  import Classifier

  /** A recorded step. In a peer_send step an absent `pipe` or `carrier` is Null; `messages` holds
      the frame lists of whole messages and `messagesHex` their bytes; absent `chunks` are empty.
      Any other step is its dict. */
  datatype Step =
    | PeerSend(pipe: Obj, carrier: Obj, records: Option<seq<Obj>>, hex: Option<Bytes>,
               messages: Option<seq<Obj>>, messagesHex: Option<seq<Bytes>>, chunks: seq<int>, invalid: bool)
    | OtherStep(fields: seq<Entry>)

  type Ledger = map<Obj, nat>

  /** d.get(k, 0). */
  function Sent(peerSent: Ledger, k: Obj): nat {
    if k in peerSent then peerSent[k] else 0
  }

  /** A dict key; a list or a dict raises. */
  predicate Hashable(k: Obj) {
    !k.List? && !k.Dict?
  }

  function Lists(records: seq<seq<Obj>>): seq<Obj> {
    if records == [] then [] else [List(records[0])] + Lists(records[1..])
  }

  /** The messages of lists of frame dicts; None when one cannot be encoded. */
  function MessagesOf(messages: seq<Obj>): Option<seq<Bytes>> {
    if messages == [] then Some([])
    else
      var first :- MessageBytesOf(messages[0]);
      var rest :- MessagesOf(messages[1..]);
      Some([first] + rest)
  }

  // ---------------------------------------------------------------- what a step delivers, and where

  /** The step leaves its bytes to be filled in by the runner. */
  function Deferred(s: Step): (r: bool)
    ensures r ==> s.PeerSend? && s.records.Some?
  {
    s.PeerSend? && s.hex.None? && s.records.Some? && ItemsHavePlaceholder(s.records.value)
  }

  /** The keys of the first frame of the first record. */
  function FirstFrame(records: seq<Obj>): seq<Entry> {
    if records != [] && records[0].List? && records[0].items != [] && records[0].items[0].Dict?
    then records[0].items[0].entries else []
  }

  /** The pipe or the carrier that a step names. */
  function Target(s: Step): Obj
    requires s.PeerSend?
  {
    if s.pipe.Null? then s.carrier else s.pipe
  }

  /** What _add counts a deferred step under: on a carrier, the pipe of the PIPE_JOIN that opens
      the records, if there is one. */
  function DeferredKey(s: Step): Obj
    requires Deferred(s)
  {
    if !s.pipe.Null? then s.pipe
    else
      var first := FirstFrame(s.records.value);
      if Get(first, KType) == Some(Str(FrameText(PIPE_JOIN))) then Get(first, KPipe).GetOr(Null) else s.carrier
  }

  function CountedUnder(s: Step): Obj
    requires s.PeerSend?
  {
    if Deferred(s) then DeferredKey(s) else Target(s)
  }

  /** The byte-stream form of what a step delivers, with stand-ins for placeholders. */
  function BytesOf(s: Step): Bytes {
    if s.OtherStep? then []
    else if s.hex.Some? then s.hex.value
    else if s.records.Some? then RecordsBytes(StandInItems(s.records.value)).GetOr([])
    else if s.messagesHex.Some? && Framable(s.messagesHex.value) then Framed(s.messagesHex.value)
    else []
  }

  /** All that the steps deliver under a key, in order. */
  function Delivered(steps: seq<Step>, k: Obj): Bytes {
    if steps == [] then []
    else
      var s := steps[|steps| - 1];
      Delivered(steps[..|steps| - 1], k) + (if s.PeerSend? && CountedUnder(s) == k then BytesOf(s) else [])
  }

  /** A step that says what it delivers in one way only: hex beside records is their encoding,
      records without hex wait for placeholders, and so for the bytes of messages. */
  predicate Honest(s: Step) {
    s.PeerSend? ==>
      && (s.records.Some? && s.hex.Some? ==>
            !ItemsHavePlaceholder(s.records.value) && RecordsBytes(s.records.value) == s.hex)
      && (s.records.Some? && s.hex.None? ==>
            Deferred(s) && PlaceholderRecordLen(s.records.value).Some? && s.messagesHex.None?)
      && (s.messagesHex.Some? ==> s.hex.None? && Framable(s.messagesHex.value))
      && (s.messages.Some? ==> MessagesOf(s.messages.value) == s.messagesHex)
  }

  predicate AllHonest(steps: seq<Step>) {
    forall i :: 0 <= i < |steps| ==> Honest(steps[i])
  }

  /** Every key is charged with as many bytes as the steps deliver under it. */
  ghost predicate Balanced(peerSent: Ledger, steps: seq<Step>) {
    forall k :: Sent(peerSent, k) == |Delivered(steps, k)|
  }

  function Charge(peerSent: Ledger, k: Obj, n: nat): Ledger {
    peerSent[k := Sent(peerSent, k) + n]
  }

  lemma DeliveredAppend(steps: seq<Step>, s: Step, k: Obj)
    ensures Delivered(steps + [s], k)
         == Delivered(steps, k) + (if s.PeerSend? && CountedUnder(s) == k then BytesOf(s) else [])
  {
    hide CountedUnder, BytesOf;
    assert (steps + [s])[..|steps|] == steps;
  }

  /** Recording a step and charging its key with its bytes keeps the balance. */
  lemma ChargedStep(peerSent: Ledger, steps: seq<Step>, s: Step)
    requires Balanced(peerSent, steps) && s.PeerSend?
    ensures Balanced(Charge(peerSent, CountedUnder(s), |BytesOf(s)|), steps + [s])
  {
    hide CountedUnder, BytesOf, Delivered;
    forall k ensures Sent(Charge(peerSent, CountedUnder(s), |BytesOf(s)|), k) == |Delivered(steps + [s], k)| {
      DeliveredAppend(steps, s, k);
      assert Sent(peerSent, k) == |Delivered(steps, k)|;
    }
  }

  lemma OtherStepKeeps(peerSent: Ledger, steps: seq<Step>, s: Step)
    requires Balanced(peerSent, steps) && s.OtherStep?
    ensures Balanced(peerSent, steps + [s])
  {
    hide Delivered;
    forall k ensures Sent(peerSent, k) == |Delivered(steps + [s], k)| {
      DeliveredAppend(steps, s, k);
    }
  }

  lemma {:induction false} FramedLength(msgs: seq<Bytes>)
    requires Framable(msgs)
    ensures |Framed(msgs)| == PositionAfter(msgs)
  {
    hide EncV;
    if msgs == [] {
    } else {
      FramedLength(msgs[1..]);
    }
  }

  /** Everything but a list or a dict can be a key. */
  lemma HashableValues(k: Obj)
    ensures match k {
              case List(_) => !Hashable(k)
              case Dict(_) => !Hashable(k)
              case _ => Hashable(k)
            }
  {
  }

  // ---------------------------------------------------------------- items in their order

  /** The i-th record is the i-th list of frames. */
  lemma {:induction false} ListsInOrder(records: seq<seq<Obj>>, i: nat)
    requires i < |records|
    ensures |Lists(records)| == |records| && Lists(records)[i] == List(records[i])
  {
    if i > 0 {
      ListsInOrder(records[1..], i - 1);
    } else if |records| > 1 {
      ListsInOrder(records[1..], 0);
    }
  }

  /** The i-th message is encoded as encode_frames does, and an error in any of them is one of all. */
  lemma {:induction false} MessagesInOrder(messages: seq<Obj>, i: nat)
    requires i < |messages|
    ensures MessagesOf(messages).Some? ==>
              && |MessagesOf(messages).value| == |messages|
              && MessageBytesOf(messages[i]) == Some(MessagesOf(messages).value[i])
    ensures MessageBytesOf(messages[i]).None? ==> MessagesOf(messages).None?
  {
    hide MessageBytesOf;
    if i > 0 {
      MessagesInOrder(messages[1..], i - 1);
    } else if |messages| > 1 {
      MessagesInOrder(messages[1..], 0);
    }
  }

  /** What _add looks at to find the pipe: the first frame of the first record. */
  lemma FirstFrameIsFirst(es: seq<Entry>, frames: seq<Obj>, records: seq<Obj>)
    ensures FirstFrame([List([Dict(es)] + frames)] + records) == es
    ensures FirstFrame([]) == [] && FirstFrame([List([])] + records) == []
  {
  }

  // ---------------------------------------------------------------- the builder

  /** A peer_send step for a pipe, or for a carrier if there is one, that delivers nothing yet. */
  function Delivery(pipe: Obj, carrier: Obj): (s: Step)
    ensures s.PeerSend?
  {
    PeerSend(if carrier.Null? then pipe else Null, carrier, None, None, None, None, [], false)
  }

  /** The step that `send` records: with hex unless the records have placeholders. */
  function SendStep(pipe: Obj, records: seq<Obj>, chunks: seq<int>, invalid: bool, carrier: Obj): (s: Step)
    ensures s.PeerSend?
  {
    var d := Delivery(pipe, carrier);
    d.(records := Some(records), hex := if ItemsHavePlaceholder(records) then None else RecordsBytes(records),
       chunks := chunks, invalid := invalid)
  }

  /** The step that `send_messages` records: frame lists beside their bytes, unless given bytes. */
  function MessagesStep(pipe: Obj, messages: seq<Obj>, raw: Option<seq<Bytes>>, carrier: Obj): (s: Step)
    ensures s.PeerSend?
  {
    var d := Delivery(pipe, carrier);
    if raw.Some? then d.(messagesHex := raw)
    else d.(messages := Some(messages), messagesHex := MessagesOf(messages))
  }

  /** The steps that `send`, `raw` and `send_messages` record, key by key. */
  lemma StepsRecorded(pipe: Obj, carrier: Obj, items: seq<Obj>, chunks: seq<int>, invalid: bool, raw: seq<Bytes>)
    ensures var at := if carrier.Null? then pipe else Null;
            && Delivery(pipe, carrier) == PeerSend(at, carrier, None, None, None, None, [], false)
            && SendStep(pipe, items, chunks, invalid, carrier) ==
                 PeerSend(at, carrier, Some(items), if ItemsHavePlaceholder(items) then None else RecordsBytes(items),
                          None, None, chunks, invalid)
            && MessagesStep(pipe, items, Some(raw), carrier) ==
                 PeerSend(at, carrier, None, None, None, Some(raw), [], false)
            && MessagesStep(pipe, items, None, carrier) ==
                 PeerSend(at, carrier, None, None, Some(items), MessagesOf(items), [], false)
  {
    hide ItemsHavePlaceholder, RecordsBytes, MessagesOf;
  }

  predicate CanSend(pipe: Obj, records: seq<Obj>, carrier: Obj) {
    if ItemsHavePlaceholder(records)
    then PlaceholderRecordLen(records).Some? && Hashable(CountedUnder(SendStep(pipe, records, [], false, carrier)))
    else RecordsBytes(records).Some? && Hashable(Target(Delivery(pipe, carrier)))
  }

  class Trace {
    var steps: seq<Step>
    var peerSent: Ledger

    ghost predicate Valid()
      reads this
    {
      AllHonest(steps) && Balanced(peerSent, steps)
    }

    constructor ()
      ensures Valid() && steps == [] && peerSent == map[]
    {
      steps := [];
      peerSent := map[];
    }

    /** _add: records a step, and counts it if the runner fills in its bytes. A balanced trace
        stays balanced if the step is honest and its bytes are to be filled in, or delivers none. */
    method Add(s: Step) returns (ok: bool)
      modifies this
      ensures ok <==> (Deferred(s) ==> Hashable(DeferredKey(s)) && PlaceholderRecordLen(s.records.value).Some?)
      ensures ok ==> steps == old(steps) + [s]
      ensures ok ==>
                peerSent ==
                  if Deferred(s) then Charge(old(peerSent), DeferredKey(s), |BytesOf(s)|) else old(peerSent)
      ensures !ok ==> steps == old(steps) && peerSent == old(peerSent)
      ensures old(Valid()) && ok && Honest(s) && (Deferred(s) || s.OtherStep?) ==> Valid()
    {
      hide DeferredKey, RecordsBytes, ItemsHavePlaceholder, StandInItems, Hashable, Balanced, Honest;
      if Balanced(peerSent, steps) {
        if Deferred(s) {
          ChargedStep(peerSent, steps, s);
        } else if s.OtherStep? {
          OtherStepKeeps(peerSent, steps, s);
        }
      }
      if Deferred(s) {
        var key := DeferredKey(s);
        if !Hashable(key) {
          return false;
        }
        var n := PlaceholderRecordLen(s.records.value);
        if n.None? {
          return false;
        }
        peerSent := peerSent[key := Sent(peerSent, key) + n.value];
      }
      steps := steps + [s];
      return true;
    }

    /** Any step that is no peer_send: it delivers nothing. */
    method AddOther(fields: seq<Entry>)
      requires Valid()
      modifies this
      ensures Valid() && steps == old(steps) + [OtherStep(fields)] && peerSent == old(peerSent)
    {
      var _ := Add(OtherStep(fields));
    }

    /** send: delivers records on a pipe, or on a carrier. */
    method Send(pipe: Obj, records: seq<seq<Obj>>, chunks: seq<int>, invalid: bool, carrier: Obj) returns (ok: bool)
      requires Valid()
      modifies this
      ensures Valid()
      ensures ok <==> CanSend(pipe, Lists(records), carrier)
      ensures ok ==> steps == old(steps) + [SendStep(pipe, Lists(records), chunks, invalid, carrier)]
      ensures !ok ==> steps == old(steps) && peerSent == old(peerSent)
    {
      hide RecordsBytes, ItemsHavePlaceholder, StandInItems, Framed, FirstFrame, Get, Lists, Hashable, Balanced;
      var recs := Lists(records);
      var key := if carrier.Null? then pipe else carrier;
      var step := Delivery(pipe, carrier);
      step := step.(records := Some(recs), invalid := invalid);
      if !ItemsHavePlaceholder(recs) {
        var b := RecordsBytes(recs);
        if b.None? || !Hashable(key) {
          return false;
        }
        step := step.(hex := b);
        ChargedStep(peerSent, steps, step.(chunks := chunks));
        peerSent := peerSent[key := Sent(peerSent, key) + |b.value|];
      }
      step := step.(chunks := chunks);
      ok := Add(step);
    }

    /** raw: delivers bytes as they are. */
    method Raw(pipe: Obj, b: Bytes, chunks: seq<int>, carrier: Obj) returns (ok: bool)
      requires Valid()
      modifies this
      ensures Valid()
      ensures ok <==> Hashable(Target(Delivery(pipe, carrier)))
      ensures ok ==> var d := Delivery(pipe, carrier); steps == old(steps) + [d.(hex := Some(b), chunks := chunks)]
      ensures !ok ==> steps == old(steps) && peerSent == old(peerSent)
    {
      hide RecordsBytes, ItemsHavePlaceholder, StandInItems, Framed, MessagesOf, FirstFrame, Get, Hashable, Balanced;
      var key := if carrier.Null? then pipe else carrier;
      var step := Delivery(pipe, carrier);
      step := step.(hex := Some(b), chunks := chunks);
      if !Hashable(key) {
        return false;
      }
      ChargedStep(peerSent, steps, step);
      peerSent := peerSent[key := Sent(peerSent, key) + |b|];
      ok := Add(step);
    }

    /** send_messages: delivers whole messages, given as bytes or as lists of frames. */
    method SendMessages(pipe: Obj, messages: seq<seq<Obj>>, raw: Option<seq<Bytes>>, carrier: Obj) returns (ok: bool)
      requires Valid()
      modifies this
      ensures Valid()
      ensures var step := MessagesStep(pipe, Lists(messages), raw, carrier);
              && (ok <==> step.messagesHex.Some? && Framable(step.messagesHex.value) && Hashable(Target(step)))
              && (ok ==> steps == old(steps) + [step])
      ensures !ok ==> steps == old(steps) && peerSent == old(peerSent)
    {
      hide RecordsBytes, ItemsHavePlaceholder, StandInItems, Framed, MessagesOf, FirstFrame, Get, Hashable, Balanced;
      var step := Delivery(pipe, carrier);
      if raw.Some? {
        step := step.(messagesHex := raw);
      } else {
        var msgs := Lists(messages);
        step := step.(messages := Some(msgs), messagesHex := MessagesOf(msgs));
        if step.messagesHex.None? {
          return false;
        }
      }
      var key := if carrier.Null? then pipe else carrier;
      var enc := step.messagesHex.value;
      if !Hashable(key) || !Framable(enc) {
        return false;
      }
      FramedLength(enc);
      ChargedStep(peerSent, steps, step);
      peerSent := peerSent[key := Sent(peerSent, key) + PositionAfter(enc)];
      ok := Add(step);
    }
  }

  // ---------------------------------------------------------------- what the runner delivers

  /** `rs` replaces the placeholders of every deferred step by values that take four bytes. */
  function Resolution(steps: seq<Step>, rs: seq<seq<Obj>>): (r: bool)
    ensures r ==> |rs| == |steps|
  {
    |rs| == |steps| &&
    forall i :: 0 <= i < |steps| && Deferred(steps[i]) ==> ResolvesItems(steps[i].records.value, rs[i])
  }

  /** What the runner delivers for a step: the bytes it holds, or the records that it resolves
      to; None when those cannot be encoded. */
  function DeliveryOf(s: Step, records: seq<Obj>): Option<Bytes> {
    if Deferred(s) then RecordsBytes(records) else Some(BytesOf(s))
  }

  predicate Under(s: Step, k: Obj) {
    s.PeerSend? && CountedUnder(s) == k
  }

  /** What the steps deliver when they resolve to `rs`. */
  function Deliveries(steps: seq<Step>, rs: seq<seq<Obj>>): (ds: seq<Option<Bytes>>)
    requires |rs| == |steps|
    ensures |ds| == |steps|
  {
    if steps == [] then []
    else
      var n := |steps| - 1;
      Deliveries(steps[..n], rs[..n]) + [DeliveryOf(steps[n], rs[n])]
  }

  /** The byte stream under a key when the steps deliver `ds`. */
  function OnWire(steps: seq<Step>, ds: seq<Option<Bytes>>, k: Obj): Option<Bytes>
    requires |ds| == |steps|
  {
    if steps == [] then Some([])
    else
      var n := |steps| - 1;
      var before :- OnWire(steps[..n], ds[..n], k);
      if !Under(steps[n], k) then Some(before)
      else
        var b :- ds[n];
        Some(before + b)
  }

  /** When every step counted under a key delivers as many bytes as were counted, so do all. */
  lemma {:induction false} WireLength(steps: seq<Step>, ds: seq<Option<Bytes>>, k: Obj)
    requires |ds| == |steps|
    requires forall i :: 0 <= i < |steps| && Under(steps[i], k) ==> Length(ds[i]) == Some(|BytesOf(steps[i])|)
    ensures Length(OnWire(steps, ds, k)) == Some(|Delivered(steps, k)|)
  {
    hide BytesOf, CountedUnder;
    if steps == [] {
    } else {
      var n := |steps| - 1;
      WireLength(steps[..n], ds[..n], k);
    }
  }

  /** A placeholder of the step is a count that matters. */
  predicate LiveStep(s: Step) {
    Deferred(s) && LiveRecords(s.records.value)
  }

  /** There is such a step among those counted under a key. */
  predicate LiveUnder(steps: seq<Step>, k: Obj) {
    exists i :: 0 <= i < |steps| && Under(steps[i], k) && LiveStep(steps[i])
  }

  lemma DeliveredLength(s: Step, records: seq<Obj>)
    requires Honest(s) && !LiveStep(s) && (Deferred(s) ==> ResolvesItems(s.records.value, records))
    ensures Length(DeliveryOf(s, records)) == Some(|BytesOf(s)|)
  {
    hide RecordsBytes, ResolvesItems, LiveRecords, ItemsHavePlaceholder, StandInItems, MessagesOf;
    if Deferred(s) {
      LengthWithoutResolving(s.records.value, records);
    }
  }

  lemma {:induction false} DeliveryAt(steps: seq<Step>, rs: seq<seq<Obj>>, i: nat)
    requires i < |steps| == |rs|
    ensures Deliveries(steps, rs)[i] == DeliveryOf(steps[i], rs[i])
  {
    hide DeliveryOf;
    var n := |steps| - 1;
    if i < n {
      DeliveryAt(steps[..n], rs[..n], i);
    }
  }

  lemma NotLiveBefore(steps: seq<Step>, k: Obj)
    requires steps != []
    ensures LiveUnder(steps, k) <==>
              LiveUnder(steps[..|steps| - 1], k) || (Under(steps[|steps| - 1], k) && LiveStep(steps[|steps| - 1]))
  {
    hide Under, LiveStep;
    var n := |steps| - 1;
    if LiveUnder(steps[..n], k) {
      var i :| 0 <= i < n && Under(steps[..n][i], k) && LiveStep(steps[..n][i]);
      assert Under(steps[i], k);
    }
    if LiveUnder(steps, k) {
      var i :| 0 <= i < |steps| && Under(steps[i], k) && LiveStep(steps[i]);
      assert i < n ==> Under(steps[..n][i], k);
    }
  }

  /** The books close: under a key without a live count the builder has counted exactly the bytes
      that the runner delivers, whatever the placeholders resolve to. */
  lemma CountedIsDelivered(peerSent: Ledger, steps: seq<Step>, rs: seq<seq<Obj>>, k: Obj)
    requires AllHonest(steps) && Balanced(peerSent, steps) && Resolution(steps, rs) && !LiveUnder(steps, k)
    ensures Length(OnWire(steps, Deliveries(steps, rs), k)) == Some(Sent(peerSent, k))
  {
    hide Honest, OnWire, Delivered, Deliveries, Under, LiveStep, DeliveryOf, Deferred, ResolvesItems;
    forall i | 0 <= i < |steps| && Under(steps[i], k)
      ensures Length(Deliveries(steps, rs)[i]) == Some(|BytesOf(steps[i])|)
    {
      DeliveryAt(steps, rs, i);
      DeliveredLength(steps[i], rs[i]);
    }
    WireLength(steps, Deliveries(steps, rs), k);
  }

  function RaisedRecords(s: Step): seq<Obj> {
    if Deferred(s) then FillInItems(s.records.value, RAISE) else []
  }

  /** Every deferred step filled in with the value after the stand-in. */
  function Raised(steps: seq<Step>): (rs: seq<seq<Obj>>)
    ensures |rs| == |steps|
  {
    if steps == [] then [] else Raised(steps[..|steps| - 1]) + [RaisedRecords(steps[|steps| - 1])]
  }

  lemma {:induction false} RaisedResolves(steps: seq<Step>)
    ensures Resolution(steps, Raised(steps))
  {
    hide Deferred, ResolvesItems, FillInItems;
    if steps == [] {
    } else {
      var n := |steps| - 1;
      RaisedResolves(steps[..n]);
      if Deferred(steps[n]) {
        FillInItemsResolves(steps[n].records.value, RAISE);
      }
    }
  }

  lemma RaisedDelivery(s: Step)
    requires Honest(s)
    ensures var d := DeliveryOf(s, RaisedRecords(s));
            d.Some? ==> |BytesOf(s)| <= |d.value| && (LiveStep(s) ==> |BytesOf(s)| < |d.value|)
  {
    hide RecordsBytes, LiveRecords, ItemsHavePlaceholder, StandInItems, FillInItems, MessagesOf;
    if Deferred(s) && RecordsBytes(FillInItems(s.records.value, RAISE)).Some? {
      RecordsGrow(s.records.value);
    }
  }

  /** Raised, no step delivers less than was counted, so a live count shows in the sum. */
  lemma {:induction false} RaisedWire(steps: seq<Step>, k: Obj)
    requires AllHonest(steps) && OnWire(steps, Deliveries(steps, Raised(steps)), k).Some?
    ensures |Delivered(steps, k)| <= |OnWire(steps, Deliveries(steps, Raised(steps)), k).value|
    ensures LiveUnder(steps, k) ==> |Delivered(steps, k)| < |OnWire(steps, Deliveries(steps, Raised(steps)), k).value|
  {
    hide Honest, BytesOf, DeliveryOf, CountedUnder, LiveStep, Deferred, FillInItems;
    if steps == [] {
    } else {
      var n := |steps| - 1;
      NotLiveBefore(steps, k);
      assert Raised(steps)[..n] == Raised(steps[..n]);
      var ds := Deliveries(steps, Raised(steps));
      assert ds[..n] == Deliveries(steps[..n], Raised(steps[..n]));
      RaisedDelivery(steps[n]);
      RaisedWire(steps[..n], k);
    }
  }

  /** Under a key the count is right for every resolution exactly when no step counted there has
      a live count. */
  lemma RightWithoutLiveSteps(peerSent: Ledger, steps: seq<Step>, k: Obj)
    requires AllHonest(steps) && Balanced(peerSent, steps)
    ensures !LiveUnder(steps, k) <==>
              forall rs :: Resolution(steps, rs) ==>
                Length(OnWire(steps, Deliveries(steps, rs), k)) == Some(Sent(peerSent, k))
  {
    hide Honest, Resolution, LiveUnder, OnWire, Delivered, Raised, Deliveries;
    if LiveUnder(steps, k) {
      RaisedResolves(steps);
      if OnWire(steps, Deliveries(steps, Raised(steps)), k).Some? {
        RaisedWire(steps, k);
      }
    } else {
      forall rs | Resolution(steps, rs)
        ensures Length(OnWire(steps, Deliveries(steps, rs), k)) == Some(Sent(peerSent, k))
      {
        CountedIsDelivered(peerSent, steps, rs, k);
      }
    }
  }

  // Placeholders in positions of PIPE_ACKs only, written in four bytes.

  /** What the runner delivers for a step when its placeholders come to these counts. */
  function RunnerDelivery(s: Step, counts: Counts): Option<Bytes>
    requires Deferred(s) ==> RecordsTemplate(s.records.value)
  {
    if Deferred(s) then RunnerRecords(s.records.value, counts) else Some(BytesOf(s))
  }

  predicate AckSteps(steps: seq<Step>) {
    forall i :: 0 <= i < |steps| && Deferred(steps[i]) ==> RecordsTemplate(steps[i].records.value)
  }

  function RunnerDeliveries(steps: seq<Step>, counts: seq<Counts>): (ds: seq<Option<Bytes>>)
    requires AckSteps(steps) && |counts| == |steps|
    ensures |ds| == |steps|
  {
    if steps == [] then []
    else
      var n := |steps| - 1;
      RunnerDeliveries(steps[..n], counts[..n]) + [RunnerDelivery(steps[n], counts[n])]
  }

  lemma {:induction false} RunnerDeliveryAt(steps: seq<Step>, counts: seq<Counts>, i: nat)
    requires AckSteps(steps) && i < |steps| == |counts|
    ensures RunnerDeliveries(steps, counts)[i] == RunnerDelivery(steps[i], counts[i])
  {
    hide RunnerDelivery, Deferred, RecordsTemplate;
    var n := |steps| - 1;
    if i < n {
      RunnerDeliveryAt(steps[..n], counts[..n], i);
    }
  }

  lemma RunnerLength(s: Step, counts: Counts)
    requires Honest(s) && (Deferred(s) ==> RecordsTemplate(s.records.value)) && AllFitFour(counts)
    ensures Length(RunnerDelivery(s, counts)) == Some(|BytesOf(s)|)
  {
    hide RecordsBytes, RecordsTemplate, RunnerRecords, ItemsHavePlaceholder, StandInItems, MessagesOf, AllFitFour;
    if Deferred(s) {
      LengthBeforeResolving(s.records.value, counts);
    }
  }

  /** The books close: when placeholders stand in positions of PIPE_ACKs, the builder has counted
      under every key the bytes that the runner delivers, for all counts below 2^30. */
  lemma CountedBeforeRunning(peerSent: Ledger, steps: seq<Step>, counts: seq<Counts>, k: Obj)
    requires AllHonest(steps) && Balanced(peerSent, steps) && AckSteps(steps) && |counts| == |steps|
    requires forall i :: 0 <= i < |steps| ==> AllFitFour(counts[i])
    ensures Length(OnWire(steps, RunnerDeliveries(steps, counts), k)) == Some(Sent(peerSent, k))
  {
    hide Honest, OnWire, Delivered, RunnerDeliveries, Under, RunnerDelivery, Deferred, RecordsTemplate, AllFitFour;
    forall i | 0 <= i < |steps| && Under(steps[i], k)
      ensures Length(RunnerDeliveries(steps, counts)[i]) == Some(|BytesOf(steps[i])|)
    {
      RunnerDeliveryAt(steps, counts, i);
      RunnerLength(steps[i], counts[i]);
    }
    WireLength(steps, RunnerDeliveries(steps, counts), k);
  }

  // ---------------------------------------------------------------- which key is charged

  /** Records with a placeholder, on a carrier that is not named like the pipe which their
      first frame joins. */
  predicate ChargesThePipe(s: Step) {
    Deferred(s) && s.pipe.Null? && Get(FirstFrame(s.records.value), KType) == Some(Str(FrameText(PIPE_JOIN)))
    && Get(FirstFrame(s.records.value), KPipe).GetOr(Null) != s.carrier
  }

  /** All that the steps deliver on the pipe or the carrier `k` that they name. */
  function DeliveredOn(steps: seq<Step>, k: Obj): Bytes {
    if steps == [] then []
    else
      var s := steps[|steps| - 1];
      DeliveredOn(steps[..|steps| - 1], k) + (if s.PeerSend? && Target(s) == k then BytesOf(s) else [])
  }

  ghost predicate BalancedOn(peerSent: Ledger, steps: seq<Step>) {
    forall k :: Sent(peerSent, k) == |DeliveredOn(steps, k)|
  }

  lemma DeliveredOnAppend(steps: seq<Step>, s: Step, k: Obj)
    ensures DeliveredOn(steps + [s], k)
         == DeliveredOn(steps, k) + (if s.PeerSend? && Target(s) == k then BytesOf(s) else [])
  {
    hide Target, BytesOf;
    assert (steps + [s])[..|steps|] == steps;
  }

  lemma RecordIsNotEmpty(o: Obj)
    requires RecordBytesOf(o).Some?
    ensures RecordBytesOf(o).value != []
  {
    hide EncV, FramesOf, WireAll, AllEncodable;
  }

  /** A deferred step delivers something: at least the Size of a record. */
  lemma DeferredIsNotEmpty(s: Step)
    requires Deferred(s) && Honest(s)
    ensures BytesOf(s) != []
  {
    hide RecordBytesOf, StandIn, HasPlaceholder;
    var records := s.records.value;
    assert records != [];
    RecordIsNotEmpty(StandInItems(records)[0]);
  }

  /** The books are kept by the pipe or carrier that a step names, except that one kind of
      step is charged to the pipe it joins. */
  lemma ChargedWhereNamed(peerSent: Ledger, steps: seq<Step>, s: Step)
    requires BalancedOn(peerSent, steps) && s.PeerSend? && Honest(s)
    ensures BalancedOn(Charge(peerSent, CountedUnder(s), |BytesOf(s)|), steps + [s]) <==> !ChargesThePipe(s)
  {
    hide Honest, BytesOf, DeliveredOn, ItemsHavePlaceholder, Get, FirstFrame;
    var now := Charge(peerSent, CountedUnder(s), |BytesOf(s)|);
    if ChargesThePipe(s) {
      DeferredIsNotEmpty(s);
      DeliveredOnAppend(steps, s, s.carrier);
      assert Sent(peerSent, s.carrier) == |DeliveredOn(steps, s.carrier)|;
      assert Sent(now, s.carrier) != |DeliveredOn(steps + [s], s.carrier)|;
    } else {
      forall k ensures Sent(now, k) == |DeliveredOn(steps + [s], k)| {
        DeliveredOnAppend(steps, s, k);
        assert Sent(peerSent, k) == |DeliveredOn(steps, k)|;
      }
    }
  }

  lemma ChargedByName(s: Step)
    requires !ChargesThePipe(s)
    ensures s.PeerSend? ==> CountedUnder(s) == Target(s)
  {
    hide ItemsHavePlaceholder, Get, FirstFrame;
  }

  lemma {:induction false} SameDeliveries(steps: seq<Step>, k: Obj)
    requires forall i :: 0 <= i < |steps| ==> !ChargesThePipe(steps[i])
    ensures DeliveredOn(steps, k) == Delivered(steps, k)
  {
    hide ChargesThePipe, BytesOf, CountedUnder, Target;
    if steps == [] {
    } else {
      ChargedByName(steps[|steps| - 1]);
      SameDeliveries(steps[..|steps| - 1], k);
    }
  }

  /** Over a whole history: a trace without such a step is balanced by the pipes and carriers
      that its steps name. */
  lemma BalancedWhereNamed(peerSent: Ledger, steps: seq<Step>)
    requires Balanced(peerSent, steps) && forall i :: 0 <= i < |steps| ==> !ChargesThePipe(steps[i])
    ensures BalancedOn(peerSent, steps)
  {
    hide Delivered, DeliveredOn, ChargesThePipe;
    forall k ensures Sent(peerSent, k) == |DeliveredOn(steps, k)| {
      SameDeliveries(steps, k);
    }
  }

  // A step that is charged to the pipe it joins.

  /** A PIPE_JOIN of pipe 2. */
  function JoinOfPipe2(fateGroup: int): (f: Frame)
    ensures f.PipeJoin?
  {
    PipeJoin(Join([1], 2, Up, false, false, fateGroup, 0, Zeros(16)))
  }

  lemma JoinHead(fateGroup: int)
    ensures var es := DictEntries(JoinOfPipe2(fateGroup)); |es| == 9 && es[0] == Entry(KType, Str(FrameText(PIPE_JOIN)))
  {
    hide Zeros;
  }

  /** Its dict, with a placeholder for the fate group. */
  function JoinTemplate(): Obj {
    var es := DictEntries(JoinOfPipe2(0));
    JoinHead(0);
    Dict(es[6 := Entry(KFateGroup, SOME_COUNT)])
  }

  lemma {:induction false} StandInEach(es: seq<Entry>)
    ensures forall i :: 0 <= i < |es| ==> StandInEntries(es)[i] == StandInEntry(es[i])
  {
    hide StandInEntry;
    if es == [] {
    } else {
      StandInEach(es[1..]);
    }
  }

  lemma SomeCountStandsFor(k: Key)
    ensures StandInEntry(Entry(k, SOME_COUNT)) == Entry(k, Num(PLACEHOLDER_STANDIN))
  {
    assert SOME_COUNT.entries[0].key == KSent;
  }

  lemma PlainStandsForItself(e: Entry)
    requires !e.val.Dict? && !e.val.List?
    ensures StandInEntry(e) == e
  {
  }

  lemma {:induction false} PlaceholderAt(es: seq<Entry>, k: nat)
    requires k < |es| && HasPlaceholder(es[k].val)
    ensures EntriesHavePlaceholder(es)
  {
    hide HasPlaceholder;
    if k == 0 {
    } else {
      PlaceholderAt(es[1..], k - 1);
    }
  }

  /** One placeholder, the seventh value, among plain ones. */
  lemma OnePlaceholder(es: seq<Entry>)
    requires |es| == 9 && es[6].val == SOME_COUNT
    requires forall i :: 0 <= i < 9 ==> es[i].key != KSent && (i == 6 || !(es[i].val.Dict? || es[i].val.List?))
    ensures StandIn(Dict(es)) == Dict(es[6 := Entry(es[6].key, Num(PLACEHOLDER_STANDIN))])
    ensures HasPlaceholder(Dict(es))
  {
    hide StandInEntries, EntriesHavePlaceholder, StandInEntry;
    StandInEach(es);
    assert SOME_COUNT.entries[0].key == KSent;
    SomeCountStandsFor(es[6].key);
    var out := es[6 := Entry(es[6].key, Num(PLACEHOLDER_STANDIN))];
    forall i | 0 <= i < 9 ensures StandInEntries(es)[i] == out[i] {
      if i != 6 {
        PlainStandsForItself(es[i]);
      }
    }
    assert StandInEntries(es) == out;
    PlaceholderAt(es, 6);
  }

  lemma Elsewhere(a: seq<Entry>, b: seq<Entry>, i: nat, x: Entry)
    requires i < |a| == |b| && forall k :: 0 <= k < |a| && k != i ==> a[k] == b[k]
    ensures a[i := x][i := b[i]] == b
  {
  }

  lemma JoinParts(fateGroup: int)
    ensures var es := DictEntries(JoinOfPipe2(fateGroup));
            && |es| == 9
            && (forall i :: 0 <= i < 9 ==> es[i].key != KSent && !es[i].val.Dict? && !es[i].val.List?)
            && (forall i :: 0 <= i < 9 && i != 6 ==> es[i] == DictEntries(JoinOfPipe2(0))[i])
            && es[6] == Int(KFateGroup, fateGroup)
            && es[0] == Entry(KType, Str(FrameText(PIPE_JOIN))) && es[1].key == KLocator && es[2] == Int(KPipe, 2)
            && FrameDict(JoinOfPipe2(fateGroup)) == Dict(es)
  {
    hide Zeros;
    JoinHead(fateGroup);
    JoinHead(0);
  }

  /** The two joins differ in their fate group alone. */
  lemma SeventhOnly()
    ensures var es := DictEntries(JoinOfPipe2(0));
            |es| == 9 && FrameDict(JoinOfPipe2(PLACEHOLDER_STANDIN))
                           == Dict(es[6 := Entry(KFateGroup, SOME_COUNT)][6 := Int(KFateGroup, PLACEHOLDER_STANDIN)])
  {
    hide DictEntries, FrameDict, JoinOfPipe2;
    var es, out := DictEntries(JoinOfPipe2(0)), DictEntries(JoinOfPipe2(PLACEHOLDER_STANDIN));
    JoinParts(0);
    JoinParts(PLACEHOLDER_STANDIN);
    Elsewhere(es, out, 6, Entry(KFateGroup, SOME_COUNT));
  }

  lemma TemplateStandsFor()
    ensures HasPlaceholder(JoinTemplate())
    ensures StandIn(JoinTemplate()) == FrameDict(JoinOfPipe2(PLACEHOLDER_STANDIN))
  {
    hide StandIn, HasPlaceholder, DictEntries, FrameDict, JoinOfPipe2;
    JoinParts(0);
    var es := DictEntries(JoinOfPipe2(0));
    OnePlaceholder(es[6 := Entry(KFateGroup, SOME_COUNT)]);
    SeventhOnly();
  }

  lemma Single(o: Obj)
    ensures ItemsHavePlaceholder([o]) == HasPlaceholder(o)
    ensures StandInItems([o]) == [StandIn(o)]
    ensures RecordsBytes([o]) == RecordBytesOf(o)
  {
    hide HasPlaceholder, StandIn, RecordBytesOf;
    assert [o][1..] == [];
    assert !ItemsHavePlaceholder([]) && StandInItems([]) == [] && RecordsBytes([]) == Some([]);
    if RecordBytesOf(o).Some? {
      assert RecordBytesOf(o).value + [] == RecordBytesOf(o).value;
    }
  }

  /** One record with one frame. */
  lemma OneRecord(o: Obj)
    ensures ItemsHavePlaceholder([List([o])]) == HasPlaceholder(o)
    ensures StandInItems([List([o])]) == [List([StandIn(o)])]
    ensures RecordsBytes([List([o])]) == RecordBytesOf(List([o]))
  {
    hide ItemsHavePlaceholder, StandInItems, RecordsBytes, RecordBytesOf;
    Single(o);
    Single(List([o]));
  }

  lemma JoinIsWellFormed(f: Frame)
    requires f == JoinOfPipe2(PLACEHOLDER_STANDIN)
    ensures FrameWellFormed(f)
  {
    hide Zeros, AllPrintable;
    JoinPrintable(f.join);
  }

  lemma FrameIsShort(f: Frame)
    requires FrameWellFormed(f) && f.PipeJoin?
    ensures IsVarint(|Wire(f)|)
  {
    hide FrameWellFormed, DecodeFrameSpec, Wire;
    FrameRoundTrip(f, [], None, None);
    assert Wire(f) + [] == Wire(f);
    Classifier.JoinAtMost62(Wire(f), None, None);
  }

  lemma JoinEncodes()
    ensures RecordBytesOf(List([FrameDict(JoinOfPipe2(PLACEHOLDER_STANDIN))])).Some?
  {
    hide FrameOf, FrameDict, EncV, FrameWellFormed, WireAll, AllEncodable, Zeros;
    var f := JoinOfPipe2(PLACEHOLDER_STANDIN);
    JoinIsWellFormed(f);
    DictReadsBack(f);
    OneFrame(FrameDict(f), f);
    FrameIsShort(f);
  }

  lemma ThirdKey(es: seq<Entry>)
    requires |es| > 2 && es[0].key == KType && es[1].key != KPipe && es[2].key == KPipe
    ensures Get(es, KType) == Some(es[0].val) && Get(es, KPipe) == Some(es[2].val)
  {
    assert Get(es[1..], KPipe) == Get(es[1..][1..], KPipe);
    assert es[1..][1..][0] == es[2];
  }

  lemma TemplateReads()
    ensures var first := FirstFrame([List([JoinTemplate()])]);
            Get(first, KType) == Some(Str(FrameText(PIPE_JOIN))) && Get(first, KPipe) == Some(Num(2))
  {
    hide DictEntries, JoinOfPipe2;
    JoinParts(0);
    ThirdKey(JoinTemplate().entries);
  }

  /** Sent on carrier "c2", the template is charged to pipe 2, but the join that it stands for
      is charged to "c2". */
  lemma JoinOnACarrier()
    ensures var s := SendStep(Null, [List([JoinTemplate()])], [], false, Str(Chars("c2")));
            Honest(s) && ChargesThePipe(s) && CountedUnder(s) == Num(2)
    ensures var t := SendStep(Null, [List([FrameDict(JoinOfPipe2(PLACEHOLDER_STANDIN))])], [], false, Str(Chars("c2")));
            CountedUnder(t) == Str(Chars("c2"))
  {
    hide StandIn, HasPlaceholder, DictEntries, FrameDict, JoinOfPipe2, JoinTemplate, RecordBytesOf;
    hide ItemsHavePlaceholder, StandInItems, RecordsBytes, FirstFrame, Get;
    TemplateStandsFor();
    var t, o := JoinTemplate(), FrameDict(JoinOfPipe2(PLACEHOLDER_STANDIN));
    OneRecord(t);
    StandInLeavesNone(t);
    OneRecord(o);
    JoinEncodes();
    TemplateReads();
  }
}
