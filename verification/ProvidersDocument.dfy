/** From gsm and cdma elements up to the whole document. */
module ProvidersDocument {
  import opened Wrappers
  import opened ProvidersModel
  import opened Providers
  import opened ProvidersProof

  // ---- gsm ----------------------------------------------------------------------

  lemma ApnStart(codes: map<string, string>, p: Parser, attrs: Attributes)
    requires Consistent(p) && p.state.InGsm?
    ensures StartElement(codes, p, "apn", attrs) ==
            match Attribute(attrs, "value")
            case None => Bare(p)
            case Some(value) => Bare(p).(state := InApn, method_ := Some(NEW_METHOD.(gsmApn := Some(Strip(value)))))
  {
    hide Attribute;
    hide Strip;
  }

  lemma ApnFinish(p: Parser, items: seq<MethodItem>, apn: string)
    requires Consistent(p) && p.state.InApn? && p.method_ == Some(MethodProgress(items, Some(apn)))
    ensures var v := p.provider.value;
            var done := MethodMeaning(items, Or(FirstName(items), Some("Default")), Some(apn), Gsm);
            EndElement(p, "apn") ==
            Bare(p).(state := InGsm, method_ := None, provider := Some(v.(methods := [done] + v.methods)))
  {
    ReverseTwice(DnsList(items));
  }

  lemma EndIgnoredInGsm(p: Parser, name: string)
    requires Consistent(p) && p.state.InGsm? && name != "gsm"
    ensures EndElement(p, name) == p
  {
  }

  lemma ApnRun(codes: map<string, string>, p: Parser, attrs: Attributes, items: seq<MethodItem>)
    requires Consistent(p) && p.state.InGsm? && forall i :: 0 <= i < |items| ==> MethodItemOk(items[i])
    ensures var v := p.provider.value;
            Bare(Run(codes, p, Element("apn", attrs, MethodEvents(items)))) ==
            Bare(p).(provider := Some(v.(methods := ApnMeaning(attrs, items) + v.methods)))
  {
    hide Run;
    hide EndElement;
    hide StartElement;
    hide MethodProgress;
    hide MethodMeaning;
    hide MethodItemOk;
    hide Attribute;
    hide Strip;
    RunElement(codes, p, "apn", attrs, MethodEvents(items));
    ApnStart(codes, p, attrs);
    var q := StartElement(codes, p, "apn", attrs);
    var v := p.provider.value;
    match Attribute(attrs, "value")
    case None =>
      MethodItemsIgnored(codes, q, items);
      BareState(q, Run(codes, q, MethodEvents(items)));
      EndIgnoredInGsm(Run(codes, q, MethodEvents(items)), "apn");
      assert [] + v.methods == v.methods;
    case Some(value) =>
      ApnItemsRun(codes, q, items, Strip(value));
      var r := Run(codes, q, MethodEvents(items));
      BareState(r, Bare(q).(method_ := Some(MethodProgress(items, Some(Strip(value))))));
      ApnFinish(r, items, Strip(value));
  }

  /** The loop over the attributes, from the first j on, that have not given both parts */
  lemma {:induction false} NetworkIdFrom(attrs: Attributes, j: nat)
    requires j <= |attrs| && NetworkIdMeaning(attrs[..j]) == []
    ensures match NetworkId(attrs[j..], Latest(attrs[..j], "mcc"), Latest(attrs[..j], "mnc"))
            case None => NetworkIdMeaning(attrs) == []
            case Some(id) => NetworkIdMeaning(attrs) == [id]
    decreases |attrs| - j
  {
    hide Strip;
    if j == |attrs| {
      assert attrs[..j] == attrs && attrs[j..] == [];
    } else {
      var front := attrs[..j + 1];
      assert front[..j] == attrs[..j] && attrs[j..][1..] == attrs[j + 1..];
      if BothGiven(front) {
        NetworkIdStays(attrs, j + 1);
      } else {
        NetworkIdFrom(attrs, j + 1);
      }
    }
  }

  lemma {:induction false} NetworkIdStays(attrs: Attributes, j: nat)
    requires j <= |attrs| && NetworkIdMeaning(attrs[..j]) != []
    ensures NetworkIdMeaning(attrs) == NetworkIdMeaning(attrs[..j])
  {
    if j == |attrs| {
      assert attrs[..j] == attrs;
    } else {
      var n := |attrs| - 1;
      assert attrs[..n][..j] == attrs[..j];
      NetworkIdStays(attrs[..n], j);
    }
  }

  lemma NetworkIdNone()
    ensures NetworkIdMeaning([]) == [] && Latest([], "mcc") == Latest([], "mnc") == ""
  {
  }

  lemma NetworkIdRun(codes: map<string, string>, p: Parser, attrs: Attributes)
    requires Consistent(p) && p.state.InGsm?
    ensures var v := p.provider.value;
            Bare(EndElement(StartElement(codes, p, "network-id", attrs), "network-id")) ==
            Bare(p).(provider := Some(v.(mccMnc := NetworkIdMeaning(attrs) + v.mccMnc)))
  {
    hide NetworkId;
    hide NetworkIdMeaning;
    NetworkIdNone();
    NetworkIdFrom(attrs, 0);
    assert attrs[..0] == [] && attrs[0..] == attrs;
    var v := p.provider.value;
    assert [] + v.mccMnc == v.mccMnc;
  }

  /** What one item of a gsm element adds to the provider under construction. */
  function GsmItemEffect(v: Provider, g: GsmItem): Provider {
    match g
    case NetworkIdItem(attrs) => v.(mccMnc := NetworkIdMeaning(attrs) + v.mccMnc)
    case ApnItem(attrs, items) => v.(methods := ApnMeaning(attrs, items) + v.methods)
    case GsmNoise(_) => v
  }

  lemma GsmItemRun(codes: map<string, string>, p: Parser, g: GsmItem)
    requires Consistent(p) && p.state.InGsm? && GsmItemOk(g)
    ensures Bare(Run(codes, p, GsmItemEvents(g))) == Bare(p).(provider := Some(GsmItemEffect(p.provider.value, g)))
  {
    hide Run;
    hide EndElement;
    hide StartElement;
    hide NetworkIdMeaning;
    hide ApnMeaning;
    match g
    case NetworkIdItem(attrs) =>
      RunElement(codes, p, "network-id", attrs, []);
      RunNothing(codes, StartElement(codes, p, "network-id", attrs));
      NetworkIdRun(codes, p, attrs);
    case ApnItem(attrs, items) =>
      ApnRun(codes, p, attrs, items);
    case GsmNoise(n) =>
      NoiseIsIgnored(codes, p, n);
  }

  /** The provider under construction after the items of a gsm element. */
  function GsmProgress(v: Provider, items: seq<GsmItem>): Provider {
    v.(methods := Reverse(GsmMethods(items)) + v.methods, mccMnc := Reverse(GsmIds(items)) + v.mccMnc)
  }

  lemma ReverseShort<T>(s: seq<T>)
    requires |s| <= 1
    ensures Reverse(s) == s
  {
  }

  lemma ReverseStep<T>(s: seq<T>, more: seq<T>, old_: seq<T>)
    requires |more| <= 1
    ensures Reverse(s + more) + old_ == more + (Reverse(s) + old_)
  {
    ReverseAppend(s, more);
    ReverseShort(more);
  }

  lemma GsmProgressSnoc(v: Provider, items: seq<GsmItem>, g: GsmItem)
    ensures GsmProgress(v, items + [g]) == GsmItemEffect(GsmProgress(v, items), g)
  {
    hide MethodMeaning;
    hide Attribute;
    hide NetworkId;
    hide Strip;
    assert (items + [g])[..|items|] == items;
    var methods := if g.ApnItem? then ApnMeaning(g.apn, g.items) else [];
    var ids := if g.NetworkIdItem? then NetworkIdMeaning(g.id) else [];
    assert GsmMethods(items + [g]) == GsmMethods(items) + methods;
    assert GsmIds(items + [g]) == GsmIds(items) + ids;
    ReverseStep(GsmMethods(items), methods, v.methods);
    ReverseStep(GsmIds(items), ids, v.mccMnc);
  }

  lemma {:induction false} GsmItemsRun(codes: map<string, string>, p: Parser, items: seq<GsmItem>)
    requires Consistent(p) && p.state.InGsm? && forall i :: 0 <= i < |items| ==> GsmItemOk(items[i])
    ensures Bare(Run(codes, p, GsmEvents(items))) == Bare(p).(provider := Some(GsmProgress(p.provider.value, items)))
  {
    hide Run;
    hide GsmItemEvents;
    hide GsmItemOk;
    hide GsmItemEffect;
    RunNothing(codes, p);
    var v := p.provider.value;
    if items == [] {
      assert [] + v.methods == v.methods && [] + v.mccMnc == v.mccMnc;
    } else {
      hide GsmProgress;
      var n := |items| - 1;
      GsmItemsRun(codes, p, items[..n]);
      var q := Run(codes, p, GsmEvents(items[..n]));
      BareState(q, Bare(p).(provider := Some(GsmProgress(v, items[..n]))));
      RunAppend(codes, p, GsmEvents(items[..n]), GsmItemEvents(items[n]));
      GsmItemRun(codes, q, items[n]);
      GsmProgressSnoc(v, items[..n], items[n]);
      assert items[..n] + [items[n]] == items;
    }
  }

  // ---- provider -------------------------------------------------------------------

  lemma GsmBracket(codes: map<string, string>, p: Parser, q: Parser, attrs: Attributes)
    requires Consistent(p) && p.state.InProvider? && Consistent(q) && q.state.InGsm?
    ensures StartElement(codes, p, "gsm", attrs) == Bare(p).(state := InGsm)
    ensures EndElement(q, "gsm") == Bare(q).(state := InProvider)
  {
  }

  lemma CdmaBracket(codes: map<string, string>, p: Parser, q: Parser, attrs: Attributes, items: seq<MethodItem>)
    requires Consistent(p) && p.state.InProvider?
    requires Consistent(q) && q.state.InCdma? && q.method_ == Some(MethodProgress(items, None))
    ensures StartElement(codes, p, "cdma", attrs) == Bare(p).(state := InCdma, method_ := Some(NEW_METHOD))
    ensures var v := q.provider.value;
            EndElement(q, "cdma") ==
            Bare(q).(state := InProvider, method_ := None,
                     provider := Some(v.(methods := [MethodMeaning(items, v.name, None, Cdma)] + v.methods)))
  {
    ReverseTwice(DnsList(items));
  }

  lemma NameRun(codes: map<string, string>, p: Parser, attrs: Attributes, texts: seq<string>)
    requires Consistent(p) && p.state.InProvider?
    ensures var q := p.(text := LastText(texts));
            && Consistent(q)
            && StartElement(codes, p, "name", attrs) == Bare(p)
            && Bare(EndElement(q, "name")) ==
               Bare(p).(provider := Some(ProviderItemEffect(p.provider.value, NameItem(attrs, texts))))
  {
  }

  /** What one item adds to the provider under construction. */
  function ProviderItemEffect(v: Provider, i: ProviderItem): Provider {
    match i
    case NameItem(_, texts) => if v.name.None? then v.(name := LastText(texts)) else v
    case GsmItems(_, items) => GsmProgress(v, items)
    case CdmaItem(_, items) =>
      v.(methods := [MethodMeaning(items, v.name, None, Cdma)] + v.methods, sids := Reverse(SidList(items)) + v.sids)
    case ProviderNoise(_) => v
  }

  lemma ProviderItemRun(codes: map<string, string>, p: Parser, i: ProviderItem)
    requires Consistent(p) && p.state.InProvider? && ProviderItemOk(i)
    ensures Bare(Run(codes, p, ProviderItemEvents(i))) ==
            Bare(p).(provider := Some(ProviderItemEffect(p.provider.value, i)))
  {
    hide Run;
    hide EndElement;
    hide StartElement;
    hide GsmProgress;
    hide MethodMeaning;
    hide MethodProgress;
    hide GsmItemOk;
    hide MethodItemOk;
    match i
    case NameItem(attrs, texts) =>
      RunElement(codes, p, "name", attrs, TextEvents(texts));
      NameRun(codes, p, attrs, texts);
      TextsRun(codes, Bare(p), texts);
      assert Bare(p).(text := LastText(texts)) == p.(text := LastText(texts));
    case GsmItems(attrs, items) =>
      RunElement(codes, p, "gsm", attrs, GsmEvents(items));
      var q := Bare(p).(state := InGsm);
      GsmItemsRun(codes, q, items);
      var r := Run(codes, q, GsmEvents(items));
      BareState(r, Bare(q).(provider := Some(GsmProgress(q.provider.value, items))));
      GsmBracket(codes, p, r, attrs);
    case CdmaItem(attrs, items) =>
      RunElement(codes, p, "cdma", attrs, MethodEvents(items));
      var v := p.provider.value;
      var q := Bare(p).(state := InCdma, method_ := Some(NEW_METHOD));
      CdmaItemsRun(codes, q, items);
      var r := Run(codes, q, MethodEvents(items));
      BareState(r, Bare(q).(method_ := Some(MethodProgress(items, None)),
                            provider := Some(v.(sids := Reverse(SidList(items)) + v.sids))));
      CdmaBracket(codes, p, r, attrs, items);
    case ProviderNoise(n) =>
      NoiseIsIgnored(codes, p, n);
  }

  function ProviderProgress(items: seq<ProviderItem>): Provider {
    Provider(ProviderName(items), Reverse(ProviderMethods(items)), Reverse(ProviderIds(items)),
             Reverse(ProviderSids(items)))
  }

  lemma ProviderProgressSnoc(items: seq<ProviderItem>, i: ProviderItem)
    ensures ProviderProgress(items + [i]) == ProviderItemEffect(ProviderProgress(items), i)
  {
    hide MethodMeaning;
    hide GsmMethods;
    hide GsmIds;
    hide SidList;
    hide Reverse;
    hide LastText;
    assert (items + [i])[..|items|] == items;
    var methods := match i
      case GsmItems(_, g) => GsmMethods(g)
      case CdmaItem(_, c) => [MethodMeaning(c, ProviderName(items), None, Cdma)]
      case _ => [];
    ReverseAppend(ProviderMethods(items), methods);
    ReverseAppend(ProviderIds(items), if i.GsmItems? then GsmIds(i.gsm) else []);
    ReverseAppend(ProviderSids(items), if i.CdmaItem? then SidList(i.cdma) else []);
    if !i.GsmItems? { ReverseShort(methods); }
  }

  lemma {:induction false} ProviderItemsRun(codes: map<string, string>, p: Parser, items: seq<ProviderItem>)
    requires Consistent(p) && p.state.InProvider? && p.provider == Some(NEW_PROVIDER)
    requires forall i :: 0 <= i < |items| ==> ProviderItemOk(items[i])
    ensures Bare(Run(codes, p, ProviderEvents(items))) == Bare(p).(provider := Some(ProviderProgress(items)))
  {
    hide Run;
    hide ProviderItemEvents;
    hide ProviderItemOk;
    hide ProviderItemEffect;
    RunNothing(codes, p);
    if items != [] {
      hide ProviderProgress;
      var n := |items| - 1;
      ProviderItemsRun(codes, p, items[..n]);
      var q := Run(codes, p, ProviderEvents(items[..n]));
      BareState(q, Bare(p).(provider := Some(ProviderProgress(items[..n]))));
      RunAppend(codes, p, ProviderEvents(items[..n]), ProviderItemEvents(items[n]));
      ProviderItemRun(codes, q, items[n]);
      ProviderProgressSnoc(items[..n], items[n]);
      assert items[..n] + [items[n]] == items;
    }
  }

  // ---- country --------------------------------------------------------------------

  lemma ProviderBracket(codes: map<string, string>, p: Parser, q: Parser, attrs: Attributes, items: seq<ProviderItem>)
    requires Consistent(p) && p.state.InCountry?
    requires Consistent(q) && q.state.InProvider? && q.provider == Some(ProviderProgress(items))
    ensures StartElement(codes, p, "provider", attrs) == Bare(p).(state := InProvider, provider := Some(NEW_PROVIDER))
    ensures EndElement(q, "provider") ==
            Bare(q).(state := InCountry, provider := None, providers := [ProviderMeaning(items)] + q.providers)
  {
    ReverseTwice(ProviderMethods(items));
    ReverseTwice(ProviderIds(items));
    ReverseTwice(ProviderSids(items));
  }

  lemma CountryItemRun(codes: map<string, string>, p: Parser, c: CountryItem)
    requires Consistent(p) && p.state.InCountry? && CountryItemOk(c)
    ensures Bare(Run(codes, p, CountryItemEvents(c))) ==
            Bare(p).(providers := (if c.ProviderElement? then [ProviderMeaning(c.items)] else []) + p.providers)
  {
    hide Run;
    hide EndElement;
    hide StartElement;
    hide ProviderProgress;
    hide ProviderMeaning;
    hide ProviderItemOk;
    match c
    case ProviderElement(attrs, items) =>
      RunElement(codes, p, "provider", attrs, ProviderEvents(items));
      var q := Bare(p).(state := InProvider, provider := Some(NEW_PROVIDER));
      ProviderItemsRun(codes, q, items);
      var r := Run(codes, q, ProviderEvents(items));
      BareState(r, Bare(q).(provider := Some(ProviderProgress(items))));
      ProviderBracket(codes, p, r, attrs, items);
    case CountryNoise(n) =>
      NoiseIsIgnored(codes, p, n);
      assert [] + p.providers == p.providers;
  }

  lemma {:induction false} CountryItemsRun(codes: map<string, string>, p: Parser, items: seq<CountryItem>)
    requires Consistent(p) && p.state.InCountry? && p.providers == []
    requires forall i :: 0 <= i < |items| ==> CountryItemOk(items[i])
    ensures Bare(Run(codes, p, CountryEvents(items))) == Bare(p).(providers := CountryMeaning(items))
  {
    hide Run;
    hide CountryItemEvents;
    hide CountryItemOk;
    hide ProviderMeaning;
    RunNothing(codes, p);
    if items != [] {
      var n := |items| - 1;
      CountryItemsRun(codes, p, items[..n]);
      var q := Run(codes, p, CountryEvents(items[..n]));
      BareState(q, Bare(p).(providers := CountryMeaning(items[..n])));
      RunAppend(codes, p, CountryEvents(items[..n]), CountryItemEvents(items[n]));
      CountryItemRun(codes, q, items[n]);
    }
  }

  // ---- Countries without a code -----------------------------------------------------

  /** No element of these events means anything at top level. */
  predicate Harmless(events: seq<Event>) {
    forall i :: 0 <= i < |events| && events[i].Start? ==>
      events[i].name != "country" && events[i].name != "serviceproviders"
  }

  lemma {:induction false} HarmlessRun(codes: map<string, string>, p: Parser, events: seq<Event>)
    requires Consistent(p) && p.state.TopLevel? && Harmless(events)
    ensures Bare(Run(codes, p, events)) == Bare(p)
    decreases events
  {
    if events != [] {
      HarmlessStep(codes, p, events[0]);
      hide Step;
      hide Consistent;
      HarmlessRun(codes, Step(codes, p, events[0]), events[1..]);
    }
  }

  lemma HarmlessStep(codes: map<string, string>, p: Parser, e: Event)
    requires Consistent(p) && p.state.TopLevel? && Harmless([e])
    ensures Bare(Step(codes, p, e)) == Bare(p)
  {
    assert [e][0] == e;
  }

  lemma {:induction false} NoiseHarmless(n: Noise)
    requires Inert(n)
    ensures Harmless(NoiseEvents(n))
    decreases n, 0
  {
    if n.NoiseElement? { NoiseListHarmless(n.content); }
  }

  lemma {:induction false} NoiseListHarmless(ns: seq<Noise>)
    requires forall i :: 0 <= i < |ns| ==> Inert(ns[i])
    ensures Harmless(NoiseListEvents(ns))
    decreases ns, 1
  {
    if ns != [] {
      NoiseHarmless(ns[0]);
      NoiseListHarmless(ns[1..]);
    }
  }

  lemma {:induction false} MethodHarmless(items: seq<MethodItem>)
    requires forall i :: 0 <= i < |items| ==> MethodItemOk(items[i])
    ensures Harmless(MethodEvents(items))
  {
    if items != [] {
      var m := items[|items| - 1];
      MethodHarmless(items[..|items| - 1]);
      if m.MethodNoise? { NoiseHarmless(m.noise); }
      assert Harmless(MethodItemEvents(m));
    }
  }

  lemma {:induction false} GsmHarmless(items: seq<GsmItem>)
    requires forall i :: 0 <= i < |items| ==> GsmItemOk(items[i])
    ensures Harmless(GsmEvents(items))
  {
    if items != [] {
      var g := items[|items| - 1];
      GsmHarmless(items[..|items| - 1]);
      match g
      case NetworkIdItem(_) =>
      case ApnItem(_, content) => MethodHarmless(content);
      case GsmNoise(n) => NoiseHarmless(n);
    }
  }

  lemma {:induction false} ProviderHarmless(items: seq<ProviderItem>)
    requires forall i :: 0 <= i < |items| ==> ProviderItemOk(items[i])
    ensures Harmless(ProviderEvents(items))
  {
    if items != [] {
      var p := items[|items| - 1];
      ProviderHarmless(items[..|items| - 1]);
      match p
      case NameItem(_, _) =>
      case GsmItems(_, g) => GsmHarmless(g);
      case CdmaItem(_, c) => MethodHarmless(c);
      case ProviderNoise(n) => NoiseHarmless(n);
    }
  }

  lemma {:induction false} CountryHarmless(items: seq<CountryItem>)
    requires forall i :: 0 <= i < |items| ==> CountryItemOk(items[i])
    ensures Harmless(CountryEvents(items))
  {
    if items != [] {
      var c := items[|items| - 1];
      CountryHarmless(items[..|items| - 1]);
      match c
      case ProviderElement(_, content) => ProviderHarmless(content);
      case CountryNoise(n) => NoiseHarmless(n);
    }
  }

  // ---- The document -----------------------------------------------------------------

  lemma CountryBracket(codes: map<string, string>, p: Parser, q: Parser, attrs: Attributes)
    requires Consistent(p) && p.state.TopLevel? && Consistent(q) && q.state.InCountry?
    ensures StartElement(codes, p, "country", attrs) ==
            match Attribute(attrs, "code")
            case None => Bare(p)
            case Some(code) => Bare(p).(state := InCountry, country := Some(CountryName(codes, code)))
    ensures EndElement(q, "country") ==
            Bare(q).(table := q.table[q.country.value := q.providers], country := None, providers := [],
                     state := TopLevel)
  {
    hide Attribute;
    hide CountryName;
  }

  lemma TopEndIgnored(p: Parser, name: string)
    requires Consistent(p) && p.state.TopLevel?
    ensures EndElement(p, name) == p
  {
  }

  function TopItemEffect(codes: map<string, string>, table: map<string, seq<Provider>>, t: TopItem)
    : map<string, seq<Provider>>
  {
    if t.CountryElement? && Attribute(t.attrs, "code").Some?
    then table[CountryName(codes, Attribute(t.attrs, "code").value) := CountryMeaning(t.items)]
    else table
  }

  lemma TopItemRun(codes: map<string, string>, p: Parser, t: TopItem)
    requires Consistent(p) && p.state.TopLevel? && p.providers == [] && TopItemOk(t)
    ensures Bare(Run(codes, p, TopItemEvents(t))) == Bare(p).(table := TopItemEffect(codes, p.table, t))
  {
    hide Run;
    hide EndElement;
    hide StartElement;
    hide Attribute;
    hide CountryName;
    hide CountryItemOk;
    hide CountryMeaning;
    match t
    case TopNoise(n) =>
      NoiseIsIgnored(codes, p, n);
    case CountryElement(attrs, items) =>
      RunElement(codes, p, "country", attrs, CountryEvents(items));
      match Attribute(attrs, "code") {
        case None =>
          CountryBracket(codes, p, INITIAL.(state := InCountry, country := Some("")), attrs);
          CountryHarmless(items);
          HarmlessRun(codes, Bare(p), CountryEvents(items));
          var r := Run(codes, Bare(p), CountryEvents(items));
          BareState(r, p);
          TopEndIgnored(r, "country");
        case Some(code) =>
          var q := Bare(p).(state := InCountry, country := Some(CountryName(codes, code)));
          CountryItemsRun(codes, q, items);
          var r := Run(codes, q, CountryEvents(items));
          BareState(r, Bare(q).(providers := CountryMeaning(items)));
          CountryBracket(codes, p, r, attrs);
      }
  }

  lemma {:induction false} TopItemsRun(codes: map<string, string>, p: Parser, items: seq<TopItem>)
    requires Consistent(p) && p.state.TopLevel? && p.providers == [] && p.table == map[]
    requires forall i :: 0 <= i < |items| ==> TopItemOk(items[i])
    ensures Bare(Run(codes, p, TopEvents(items))) == Bare(p).(table := TopMeaning(codes, items))
  {
    hide Run;
    hide TopItemEvents;
    hide TopItemOk;
    hide CountryMeaning;
    hide CountryName;
    hide Attribute;
    RunNothing(codes, p);
    if items != [] {
      var n := |items| - 1;
      TopItemsRun(codes, p, items[..n]);
      var q := Run(codes, p, TopEvents(items[..n]));
      BareState(q, Bare(p).(table := TopMeaning(codes, items[..n])));
      RunAppend(codes, p, TopEvents(items[..n]), TopItemEvents(items[n]));
      TopItemRun(codes, q, items[n]);
    }
  }

  /** A database of an unsupported format is skipped to its end. */
  lemma {:induction false} FailedRun(codes: map<string, string>, p: Parser, events: seq<Event>)
    requires Consistent(p) && p.state.Failed?
    ensures Bare(Run(codes, p, events)) == Bare(p)
    decreases events
  {
    if events != [] {
      FailedStep(codes, p, events[0]);
      hide Step;
      hide Consistent;
      FailedRun(codes, Step(codes, p, events[0]), events[1..]);
    }
  }

  lemma FailedStep(codes: map<string, string>, p: Parser, e: Event)
    requires Consistent(p) && p.state.Failed?
    ensures Bare(Step(codes, p, e)) == Bare(p)
  {
  }

  lemma DocumentStart(codes: map<string, string>, attrs: Attributes)
    ensures StartElement(codes, INITIAL, "serviceproviders", attrs) ==
            if BadFormat(attrs) then INITIAL.(state := Failed) else INITIAL
  {
    hide BadFormat;
  }

  /**
   * The event machine reads the document: for every document of the schema's
   * shape, with whatever inert text and elements in between, the table the
   * parser has built at the end is the meaning of the document tree, and no
   * object is left under construction.
   */
  lemma ParserReadsDocument(codes: map<string, string>, d: Document)
    requires DocumentOk(d)
    ensures var p := Run(codes, INITIAL, DocumentEvents(d));
            && p.table == Meaning(codes, d)
            && p.country.None? && p.provider.None? && p.method_.None? && p.providers == []
  {
    hide Run;
    hide EndElement;
    hide StartElement;
    hide TopMeaning;
    hide BadFormat;
    hide TopItemOk;
    RunElement(codes, INITIAL, "serviceproviders", d.attrs, TopEvents(d.items));
    DocumentStart(codes, d.attrs);
    if BadFormat(d.attrs) {
      var q := INITIAL.(state := Failed);
      FailedRun(codes, q, TopEvents(d.items));
      var r := Run(codes, q, TopEvents(d.items));
      BareState(r, q);
      FailedStep(codes, r, End("serviceproviders"));
      BareState(EndElement(r, "serviceproviders"), r);
    } else {
      TopItemsRun(codes, INITIAL, d.items);
      var r := Run(codes, INITIAL, TopEvents(d.items));
      BareState(r, INITIAL.(table := TopMeaning(codes, d.items)));
      TopEndIgnored(r, "serviceproviders");
    }
  }
}
