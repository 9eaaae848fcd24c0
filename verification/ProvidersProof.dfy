/** Running the parser on the events of a document gives the document's meaning. */
module ProvidersProof {
  import opened Wrappers
  import opened ProvidersModel
  import opened Providers

  // ---- Lists and runs ---------------------------------------------------------

  lemma {:induction false} ReverseSnoc<T>(s: seq<T>, x: T)
    ensures Reverse(s + [x]) == [x] + Reverse(s)
  {
    if s == [] {
      assert s + [x] == [x];
    } else {
      ReverseSnoc(s[1..], x);
      assert (s + [x])[1..] == s[1..] + [x];
    }
  }

  lemma {:induction false} ReverseAppend<T>(s: seq<T>, t: seq<T>)
    ensures Reverse(s + t) == Reverse(t) + Reverse(s)
  {
    if s == [] {
      assert s + t == t;
    } else {
      ReverseAppend(s[1..], t);
      assert (s + t)[1..] == s[1..] + t;
    }
  }

  lemma {:induction false} ReverseTwice<T>(s: seq<T>)
    ensures Reverse(Reverse(s)) == s
  {
    if s != [] {
      ReverseSnoc(Reverse(s[1..]), s[0]);
      ReverseTwice(s[1..]);
    }
  }

  lemma {:induction false} RunAppend(codes: map<string, string>, p: Parser, a: seq<Event>, b: seq<Event>)
    requires Consistent(p)
    ensures Run(codes, p, a + b) == Run(codes, Run(codes, p, a), b)
    decreases a
  {
    hide Step;
    hide Consistent;
    if a == [] {
      assert a + b == b;
    } else {
      RunAppend(codes, Step(codes, p, a[0]), a[1..], b);
      assert (a + b)[1..] == a[1..] + b;
    }
  }

  lemma RunOne(codes: map<string, string>, p: Parser, e: Event)
    requires Consistent(p)
    ensures Run(codes, p, [e]) == Step(codes, p, e)
  {
    hide Step;
    hide Consistent;
  }

  lemma RunElement(codes: map<string, string>, p: Parser, name: string, attrs: Attributes, content: seq<Event>)
    requires Consistent(p)
    ensures Run(codes, p, Element(name, attrs, content)) ==
            EndElement(Run(codes, StartElement(codes, p, name, attrs), content), name)
  {
    hide StartElement;
    hide EndElement;
    hide Consistent;
    RunAppend(codes, p, [Start(name, attrs)], content);
    RunOne(codes, p, Start(name, attrs));
    RunAppend(codes, p, [Start(name, attrs)] + content, [End(name)]);
    RunOne(codes, Run(codes, p, [Start(name, attrs)] + content), End(name));
  }

  /** The parser without its text buffer. */
  function Bare(p: Parser): Parser {
    p.(text := None)
  }

  // ---- Noise --------------------------------------------------------------------

  lemma UnreservedStart(codes: map<string, string>, p: Parser, name: string, attrs: Attributes)
    requires Consistent(p) && name !in RESERVED
    ensures StartElement(codes, p, name, attrs) == Bare(p)
  {
  }

  lemma UnreservedEnd(p: Parser, name: string)
    requires Consistent(p) && name !in RESERVED
    ensures EndElement(p, name) == p
  {
  }

  lemma {:induction false} NoiseIsIgnored(codes: map<string, string>, p: Parser, n: Noise)
    requires Consistent(p) && Inert(n)
    ensures Bare(Run(codes, p, NoiseEvents(n))) == Bare(p)
    decreases n, 0
  {
    hide StartElement;
    hide EndElement;
    hide Consistent;
    match n
    case NoiseText(text) =>
      RunOne(codes, p, Text(text));
    case NoiseElement(name, attrs, content) =>
      RunElement(codes, p, name, attrs, NoiseListEvents(content));
      UnreservedStart(codes, p, name, attrs);
      var q := StartElement(codes, p, name, attrs);
      NoiseListIsIgnored(codes, q, content);
      UnreservedEnd(Run(codes, q, NoiseListEvents(content)), name);
  }

  lemma {:induction false} NoiseListIsIgnored(codes: map<string, string>, p: Parser, ns: seq<Noise>)
    requires Consistent(p) && forall i :: 0 <= i < |ns| ==> Inert(ns[i])
    ensures Bare(Run(codes, p, NoiseListEvents(ns))) == Bare(p)
    decreases ns, 1
  {
    hide Step;
    hide Consistent;
    if ns != [] {
      NoiseIsIgnored(codes, p, ns[0]);
      RunAppend(codes, p, NoiseEvents(ns[0]), NoiseListEvents(ns[1..]));
      NoiseListIsIgnored(codes, Run(codes, p, NoiseEvents(ns[0])), ns[1..]);
    }
  }

  /** The text buffer ends up with the last run of text. */
  lemma {:induction false} TextsRun(codes: map<string, string>, p: Parser, texts: seq<string>)
    requires Consistent(p)
    ensures Run(codes, p, TextEvents(texts)) == if texts == [] then p else p.(text := LastText(texts))
    decreases |texts|
  {
    hide StartElement;
    hide EndElement;
    if texts != [] {
      var q := p.(text := Some(texts[0]));
      var events := TextEvents(texts);
      assert events[1..] == TextEvents(texts[1..]);
      TextsRun(codes, q, texts[1..]);
    }
  }

  // ---- Elements that mean nothing where they stand --------------------------------

  /** Elements a method may contain are ignored at top level, in a country and in gsm. */
  lemma MethodItemIgnored(codes: map<string, string>, p: Parser, m: MethodItem)
    requires Consistent(p) && MethodItemOk(m) && (p.state.TopLevel? || p.state.InGsm?)
    ensures Bare(Run(codes, p, MethodItemEvents(m))) == Bare(p)
  {
    hide Run;
    match m
    case FieldItem(f, attrs, texts) =>
      RunElement(codes, p, FieldName(f), attrs, TextEvents(texts));
      TextsRun(codes, StartElement(codes, p, FieldName(f), []), texts);
    case SidItem(attrs) =>
      RunElement(codes, p, "sid", attrs, []);
      RunNothing(codes, StartElement(codes, p, "sid", attrs));
    case MethodNoise(n) =>
      NoiseIsIgnored(codes, p, n);
  }

  lemma RunNothing(codes: map<string, string>, p: Parser)
    requires Consistent(p)
    ensures Run(codes, p, []) == p
  {
  }

  lemma BareState(p: Parser, q: Parser)
    requires Bare(p) == Bare(q)
    ensures p.state == q.state && p.provider == q.provider && p.method_ == q.method_ && p.country == q.country
    ensures p.providers == q.providers && p.table == q.table && (Consistent(p) <==> Consistent(q))
  {
    assert p == Bare(p).(text := p.text) && q == Bare(q).(text := q.text);
  }

  lemma {:induction false} MethodItemsIgnored(codes: map<string, string>, p: Parser, items: seq<MethodItem>)
    requires Consistent(p) && (p.state.TopLevel? || p.state.InGsm?)
    requires forall i :: 0 <= i < |items| ==> MethodItemOk(items[i])
    ensures Bare(Run(codes, p, MethodEvents(items))) == Bare(p)
  {
    hide Run;
    hide Consistent;
    hide MethodItemEvents;
    hide MethodItemOk;
    RunNothing(codes, p);
    if items != [] {
      var n := |items| - 1;
      MethodItemsIgnored(codes, p, items[..n]);
      var q := Run(codes, p, MethodEvents(items[..n]));
      BareState(p, q);
      RunAppend(codes, p, MethodEvents(items[..n]), MethodItemEvents(items[n]));
      MethodItemIgnored(codes, q, items[n]);
    }
  }

  // ---- Methods --------------------------------------------------------------------

  /** What one item does to the method under construction, in apn and (without the name) in cdma. */
  function MethodItemEffect(x: Method, m: MethodItem, named: bool): Method {
    if !m.FieldItem? then x
    else
      match m.field
      case NameField => if named && x.name.None? then x.(name := LastText(m.texts)) else x
      case UsernameField => x.(username := LastText(m.texts))
      case PasswordField => x.(password := LastText(m.texts))
      case GatewayField => x.(gateway := LastText(m.texts))
      case DnsField => x.(dns := [LastText(m.texts)] + x.dns)
  }

  /** The method under construction after the given items. */
  function MethodProgress(items: seq<MethodItem>, apn: Option<string>): Method {
    Method(if apn.Some? then FirstName(items) else None,
           LastField(items, UsernameField), LastField(items, PasswordField), LastField(items, GatewayField),
           Reverse(DnsList(items)), apn, Unknown)
  }

  lemma MethodProgressSnoc(items: seq<MethodItem>, m: MethodItem, apn: Option<string>)
    ensures MethodProgress(items + [m], apn) == MethodItemEffect(MethodProgress(items, apn), m, apn.Some?)
  {
    assert (items + [m])[..|items|] == items;
    if m.FieldItem? && m.field == DnsField {
      ReverseSnoc(DnsList(items), LastText(m.texts));
    } else {
      assert DnsList(items) + [] == DnsList(items);
    }
  }

  lemma ApnField(codes: map<string, string>, p: Parser, f: Field, attrs: Attributes, texts: seq<string>)
    requires Consistent(p) && p.state.InApn?
    ensures var q := p.(text := LastText(texts));
            && Consistent(q)
            && StartElement(codes, p, FieldName(f), attrs) == Bare(p)
            && Bare(EndElement(q, FieldName(f))) ==
               Bare(p).(method_ := Some(MethodItemEffect(p.method_.value, FieldItem(f, attrs, texts), true)))
  {
  }

  lemma CdmaField(codes: map<string, string>, p: Parser, f: Field, attrs: Attributes, texts: seq<string>)
    requires Consistent(p) && p.state.InCdma?
    ensures var q := p.(text := LastText(texts));
            && Consistent(q)
            && StartElement(codes, p, FieldName(f), attrs) == Bare(p)
            && Bare(EndElement(q, FieldName(f))) ==
               Bare(p).(method_ := Some(MethodItemEffect(p.method_.value, FieldItem(f, attrs, texts), false)))
  {
  }

  lemma SidInApn(codes: map<string, string>, p: Parser, attrs: Attributes)
    requires Consistent(p) && p.state.InApn?
    ensures Bare(EndElement(StartElement(codes, p, "sid", attrs), "sid")) == Bare(p)
  {
  }

  /** The SID that a sid element of a cdma method adds to its provider. */
  function SidEffect(v: Provider, m: MethodItem): Provider {
    if m.SidItem? && Sid(m.sid).Some? then v.(sids := [Sid(m.sid).value] + v.sids) else v
  }

  lemma SidInCdma(codes: map<string, string>, p: Parser, attrs: Attributes)
    requires Consistent(p) && p.state.InCdma?
    ensures Bare(EndElement(StartElement(codes, p, "sid", attrs), "sid")) ==
            Bare(p).(provider := Some(SidEffect(p.provider.value, SidItem(attrs))))
  {
    hide Sid;
  }

  lemma ApnItemRun(codes: map<string, string>, p: Parser, m: MethodItem)
    requires Consistent(p) && p.state.InApn? && MethodItemOk(m)
    ensures Bare(Run(codes, p, MethodItemEvents(m))) ==
            Bare(p).(method_ := Some(MethodItemEffect(p.method_.value, m, true)))
  {
    hide Run;
    hide StartElement;
    hide EndElement;
    hide FieldName;
    match m
    case FieldItem(f, attrs, texts) =>
      RunElement(codes, p, FieldName(f), attrs, TextEvents(texts));
      ApnField(codes, p, f, attrs, texts);
      TextsRun(codes, Bare(p), texts);
      assert Bare(p).(text := LastText(texts)) == p.(text := LastText(texts));
    case SidItem(attrs) =>
      RunElement(codes, p, "sid", attrs, []);
      RunNothing(codes, StartElement(codes, p, "sid", attrs));
      SidInApn(codes, p, attrs);
    case MethodNoise(n) =>
      NoiseIsIgnored(codes, p, n);
  }

  lemma CdmaItemRun(codes: map<string, string>, p: Parser, m: MethodItem)
    requires Consistent(p) && p.state.InCdma? && MethodItemOk(m)
    ensures Bare(Run(codes, p, MethodItemEvents(m))) ==
            Bare(p).(method_ := Some(MethodItemEffect(p.method_.value, m, false)),
                     provider := Some(SidEffect(p.provider.value, m)))
  {
    hide Run;
    hide StartElement;
    hide EndElement;
    hide FieldName;
    hide Sid;
    match m
    case FieldItem(f, attrs, texts) =>
      RunElement(codes, p, FieldName(f), attrs, TextEvents(texts));
      CdmaField(codes, p, f, attrs, texts);
      TextsRun(codes, Bare(p), texts);
      assert Bare(p).(text := LastText(texts)) == p.(text := LastText(texts));
    case SidItem(attrs) =>
      RunElement(codes, p, "sid", attrs, []);
      RunNothing(codes, StartElement(codes, p, "sid", attrs));
      SidInCdma(codes, p, attrs);
    case MethodNoise(n) =>
      NoiseIsIgnored(codes, p, n);
  }

  lemma {:induction false} ApnItemsRun(codes: map<string, string>, p: Parser, items: seq<MethodItem>, apn: string)
    requires Consistent(p) && p.state.InApn? && p.method_ == Some(NEW_METHOD.(gsmApn := Some(apn)))
    requires forall i :: 0 <= i < |items| ==> MethodItemOk(items[i])
    ensures Bare(Run(codes, p, MethodEvents(items))) == Bare(p).(method_ := Some(MethodProgress(items, Some(apn))))
  {
    hide Run;
    hide MethodItemEvents;
    hide MethodItemOk;
    RunNothing(codes, p);
    if items != [] {
      var n := |items| - 1;
      ApnItemsRun(codes, p, items[..n], apn);
      var q := Run(codes, p, MethodEvents(items[..n]));
      BareState(q, Bare(p).(method_ := Some(MethodProgress(items[..n], Some(apn)))));
      RunAppend(codes, p, MethodEvents(items[..n]), MethodItemEvents(items[n]));
      ApnItemRun(codes, q, items[n]);
      MethodProgressSnoc(items[..n], items[n], Some(apn));
      assert items[..n] + [items[n]] == items;
    }
  }

  lemma SidListSnoc(items: seq<MethodItem>, m: MethodItem, v: Provider)
    ensures v.(sids := Reverse(SidList(items + [m])) + v.sids) ==
            SidEffect(v.(sids := Reverse(SidList(items)) + v.sids), m)
  {
    hide Sid;
    assert (items + [m])[..|items|] == items;
    if m.SidItem? && Sid(m.sid).Some? {
      ReverseSnoc(SidList(items), Sid(m.sid).value);
    } else {
      assert SidList(items) + [] == SidList(items);
    }
  }

  lemma {:induction false} CdmaItemsRun(codes: map<string, string>, p: Parser, items: seq<MethodItem>)
    requires Consistent(p) && p.state.InCdma? && p.method_ == Some(NEW_METHOD)
    requires forall i :: 0 <= i < |items| ==> MethodItemOk(items[i])
    ensures var v := p.provider.value;
            Bare(Run(codes, p, MethodEvents(items))) ==
            Bare(p).(method_ := Some(MethodProgress(items, None)),
                     provider := Some(v.(sids := Reverse(SidList(items)) + v.sids)))
  {
    hide Run;
    hide MethodItemEvents;
    hide MethodItemOk;
    hide SidEffect;
    hide MethodItemEffect;
    RunNothing(codes, p);
    var v := p.provider.value;
    if items == [] {
      assert [] + v.sids == v.sids;
    } else {
      var n := |items| - 1;
      CdmaItemsRun(codes, p, items[..n]);
      var q := Run(codes, p, MethodEvents(items[..n]));
      BareState(q, Bare(p).(method_ := Some(MethodProgress(items[..n], None)),
                            provider := Some(v.(sids := Reverse(SidList(items[..n])) + v.sids))));
      RunAppend(codes, p, MethodEvents(items[..n]), MethodItemEvents(items[n]));
      CdmaItemRun(codes, q, items[n]);
      MethodProgressSnoc(items[..n], items[n], None);
      SidListSnoc(items[..n], items[n], v);
      assert items[..n] + [items[n]] == items;
    }
  }
}
