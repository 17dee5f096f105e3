/** The order of the parameters in a block does not matter
    (tools/zmuxwire/frames.py lines 158-219). */
module TpOrder {
  import opened Base
  import opened Varint
  import opened Registry
  import opened TransportParameters

  function Ids(es: seq<TpEntry>): set<vint> {
    set e | e in es :: e.0
  }

  lemma NoIds(es: seq<TpEntry>)
    requires es == []
    ensures Ids(es) == {} && UniqueIds(es)
  {
  }

  lemma IdsAppend(init: seq<TpEntry>, last: TpEntry)
    ensures Ids(init + [last]) == Ids(init) + {last.0}
  {
    var es := init + [last];
    assert last in es && forall e :: e in es <==> e in init || e == last;
  }

  lemma UniqueAppend(init: seq<TpEntry>, last: TpEntry)
    ensures UniqueIds(init + [last]) <==> UniqueIds(init) && last.0 !in Ids(init)
  {
    var es := init + [last];
    assert forall i :: 0 <= i < |init| ==> es[i] == init[i] && init[i] in init;
    if last.0 in Ids(init) {
      var e :| e in init && e.0 == last.0;
      var i :| 0 <= i < |init| && init[i] == e;
      assert es[i].0 == es[|init|].0;
    }
  }

  lemma {:induction false} UniqueByCount(es: seq<TpEntry>)
    ensures |Ids(es)| <= |es|
    ensures UniqueIds(es) <==> |Ids(es)| == |es|
  {
    hide Ids, UniqueIds;
    if es == [] {
      NoIds(es);
    } else {
      var init, last := es[..|es| - 1], es[|es| - 1];
      UniqueByCount(init);
      assert es == init + [last];
      IdsAppend(init, last);
      UniqueAppend(init, last);
    }
  }

  predicate EntryDecodes(e: TpEntry) {
    !IsProhibitedTp(e.0) && DecodeTpValue(e.0, e.1).Some?
  }

  /** Entries are decoded one by one. */
  lemma {:induction false} DecodedOneByOne(es: seq<TpEntry>)
    ensures DecodeEntries(es).Some? <==> forall e :: e in es ==> EntryDecodes(e)
    ensures DecodeEntries(es).Some? ==>
              forall i :: 0 <= i < |es| ==>
                EntryDecodes(es[i]) && DecodeEntries(es).value[i] == DecodeTpValue(es[i].0, es[i].1).value
  {
    hide DecodeTpValue, IsProhibitedTp;
    if es == [] {
    } else {
      DecodedOneByOne(es[1..]);
      assert es == [es[0]] + es[1..];
      assert es[0] in es;
      assert (forall e :: e in es ==> EntryDecodes(e)) <==>
             EntryDecodes(es[0]) && (forall e :: e in es[1..] ==> EntryDecodes(e));
    }
  }

  predicate DictHas(d: map<TpName, TpValue>, name: TpName, value: TpValue) {
    name in d && d[name] == value
  }

  predicate DistinctIds(ps: seq<Param>) {
    forall i, j :: 0 <= i < j < |ps| ==> ParamId(ps[i]) != ParamId(ps[j])
  }

  lemma EmptyDict()
    ensures TpDict([]) == map[]
  {
  }

  lemma DictStep(ps: seq<Param>)
    requires ps != []
    ensures var d := TpDict(ps[..|ps| - 1]); var p := ps[|ps| - 1];
            TpDict(ps) == if p.Known? then d[p.name := p.value] else d
  {
  }

  lemma SameId(p: Param, q: Param)
    requires p.Known? && q.Known? && p.name == q.name
    ensures ParamId(p) == ParamId(q)
  {
  }

  lemma DistinctStep(ps: seq<Param>, name: TpName, value: TpValue)
    requires ps != [] && DistinctIds(ps)
    ensures DistinctIds(ps[..|ps| - 1])
    ensures ps[|ps| - 1].Known? && ps[|ps| - 1].name == name ==> Known(name, value) !in ps[..|ps| - 1]
  {
    hide ParamId;
    var init, last := ps[..|ps| - 1], ps[|ps| - 1];
    if last.Known? && last.name == name && Known(name, value) in init {
      var i :| 0 <= i < |init| && init[i] == Known(name, value);
      SameId(ps[i], last);
      assert false;
    }
  }

  /** With distinct ids the dictionary holds exactly the named parameters. */
  lemma {:induction false} DictHolds(ps: seq<Param>, name: TpName, value: TpValue)
    requires DistinctIds(ps)
    ensures DictHas(TpDict(ps), name, value) <==> Known(name, value) in ps
  {
    hide ParamId, DistinctIds, TpDict;
    if ps == [] {
      assert TpDict(ps) == map[] by { EmptyDict(); }
    } else {
      var init, last := ps[..|ps| - 1], ps[|ps| - 1];
      DictStep(ps);
      DistinctStep(ps, name, value);
      DictHolds(init, name, value);
      assert ps == init + [last];
    }
  }

  lemma SameElements(es: seq<TpEntry>, fs: seq<TpEntry>)
    requires multiset(es) == multiset(fs)
    ensures |es| == |fs| && Ids(es) == Ids(fs)
    ensures forall e :: e in es <==> e in fs
  {
    assert |multiset(es)| == |multiset(fs)|;
    forall e ensures e in es <==> e in fs {
      assert e in es <==> e in multiset(es);
      assert e in fs <==> e in multiset(fs);
    }
  }

  lemma DecodedId(num: vint, raw: Bytes)
    requires DecodeTpValue(num, raw).Some?
    ensures ParamId(DecodeTpValue(num, raw).value) == num
  {
    if TpById(num).Some? {
      TpTable(num, TpById(num).value);
    }
  }

  lemma Holds(es: seq<TpEntry>, name: TpName, value: TpValue)
    requires UniqueIds(es) && DecodeEntries(es).Some?
    ensures DictHas(TpDict(DecodeEntries(es).value), name, value) <==>
              exists e :: e in es && EntryDecodes(e) && DecodeTpValue(e.0, e.1) == Some(Known(name, value))
  {
    hide DecodeTpValue, TpDict;
    DecodedOneByOne(es);
    var ps := DecodeEntries(es).value;
    forall i | 0 <= i < |ps| ensures ParamId(ps[i]) == es[i].0 {
      DecodedId(es[i].0, es[i].1);
    }
    DictHolds(ps, name, value);
    if Known(name, value) in ps {
      var i :| 0 <= i < |ps| && ps[i] == Known(name, value);
      assert es[i] in es;
    }
    forall e | e in es && EntryDecodes(e) && DecodeTpValue(e.0, e.1) == Some(Known(name, value))
      ensures Known(name, value) in ps
    {
      var i :| 0 <= i < |es| && es[i] == e;
      assert ps[i] == Known(name, value);
    }
  }

  /** Two accepted lists of the same entries in another order give the same dictionary. */
  lemma SameDict(es: seq<TpEntry>, fs: seq<TpEntry>)
    requires multiset(es) == multiset(fs) && UniqueIds(es) && UniqueIds(fs)
    requires DecodeEntries(es).Some? && DecodeEntries(fs).Some?
    ensures TpDict(DecodeEntries(es).value) == TpDict(DecodeEntries(fs).value)
  {
    hide DecodeTpValue, TpDict;
    SameElements(es, fs);
    var p, q := TpDict(DecodeEntries(es).value), TpDict(DecodeEntries(fs).value);
    forall name | name in p ensures DictHas(q, name, p[name]) {
      Holds(es, name, p[name]);
      Holds(fs, name, p[name]);
    }
    forall name | name in q ensures DictHas(p, name, q[name]) {
      Holds(es, name, q[name]);
      Holds(fs, name, q[name]);
    }
    assert p.Keys == q.Keys;
  }

  /** Permuting the entries of a block never changes whether it is accepted, and accepted
      permutations give the same name-to-value map. The two blocks may also differ in the
      widths of their varints. */
  lemma OrderIndependence(b: Bytes, c: Bytes)
    requires TpEntries(b).Some? && TpEntries(c).Some?
    requires multiset(TpEntries(b).value) == multiset(TpEntries(c).value)
    ensures DecodeTpsSpec(b).Ok? <==> DecodeTpsSpec(c).Ok?
    ensures DecodeTpsSpec(b).Ok? ==> TpDict(DecodeTpsSpec(b).value) == TpDict(DecodeTpsSpec(c).value)
  {
    hide DecodeTpValue, TpDict, TpEntries, ValidTps, UniqueIds, DecodeEntries;
    var es, fs := TpEntries(b).value, TpEntries(c).value;
    SameElements(es, fs);
    UniqueByCount(es);
    UniqueByCount(fs);
    DecodedOneByOne(es);
    DecodedOneByOne(fs);
    if UniqueIds(es) && DecodeEntries(es).Some? {
      SameDict(es, fs);
    }
  }

  /** What acceptance means, in one place: the entries are whole, their ids are distinct, none
      is prohibited, each value decodes, and the rules between parameters hold. */
  lemma Accepted(b: Bytes)
    ensures DecodeTpsSpec(b).Ok? <==>
              TpEntries(b).Some?
              && |Ids(TpEntries(b).value)| == |TpEntries(b).value|
              && (forall e :: e in TpEntries(b).value ==> EntryDecodes(e))
              && ValidTps(TpDict(DecodeEntries(TpEntries(b).value).GetOr([])))
  {
    hide DecodeTpValue, TpDict, TpEntries, ValidTps, UniqueIds, DecodeEntries;
    if TpEntries(b).Some? {
      UniqueByCount(TpEntries(b).value);
      DecodedOneByOne(TpEntries(b).value);
    }
  }
}
