/**
 * The parser of src/shell-mobile-providers.c is equal to a recursive reading
 * of the document, for every document of the schema's shape.
 */
module Providers {
  import opened Wrappers
  import opened ProvidersModel

  // ---- Documents --------------------------------------------------------------

  /**
   * What may stand anywhere without meaning: text, and elements whose names
   * (and whose descendants' names) are not ones the parser looks for.
   */
  datatype Noise = NoiseText(text: string) | NoiseElement(name: string, attrs: Attributes, content: seq<Noise>)

  const RESERVED := {
    "serviceproviders", "country", "provider", "name", "gsm", "cdma", "network-id", "apn", "sid",
    "username", "password", "dns", "gateway"}

  predicate Inert(n: Noise) {
    match n
    case NoiseText(_) => true
    case NoiseElement(name, _, content) => name !in RESERVED && forall i :: 0 <= i < |content| ==> Inert(content[i])
  }

  datatype Field = NameField | UsernameField | PasswordField | DnsField | GatewayField

  /**
   * Inside apn and cdma: a field element with its runs of text, a sid (cdma
   * only), or noise. Any element may have attributes, as a name has a
   * language; most of them are ignored.
   */
  datatype MethodItem =
    | FieldItem(field: Field, ignored: Attributes, texts: seq<string>)
    | SidItem(sid: Attributes)
    | MethodNoise(noise: Noise)

  /** Inside gsm. */
  datatype GsmItem =
    | NetworkIdItem(id: Attributes)
    | ApnItem(apn: Attributes, items: seq<MethodItem>)
    | GsmNoise(noise: Noise)

  datatype ProviderItem =
    | NameItem(ignored: Attributes, texts: seq<string>)
    | GsmItems(ignored: Attributes, gsm: seq<GsmItem>)
    | CdmaItem(ignored: Attributes, cdma: seq<MethodItem>)
    | ProviderNoise(noise: Noise)

  datatype CountryItem = ProviderElement(ignored: Attributes, items: seq<ProviderItem>) | CountryNoise(noise: Noise)

  datatype TopItem = CountryElement(attrs: Attributes, items: seq<CountryItem>) | TopNoise(noise: Noise)

  datatype Document = Document(attrs: Attributes, items: seq<TopItem>)

  function FieldName(f: Field): string {
    match f
    case NameField => "name"
    case UsernameField => "username"
    case PasswordField => "password"
    case DnsField => "dns"
    case GatewayField => "gateway"
  }

  // ---- The events of a document --------------------------------------------------

  function Element(name: string, attrs: Attributes, content: seq<Event>): seq<Event> {
    [Start(name, attrs)] + content + [End(name)]
  }

  function NoiseEvents(n: Noise): seq<Event>
    decreases n, 0
  {
    match n
    case NoiseText(text) => [Text(text)]
    case NoiseElement(name, attrs, content) => Element(name, attrs, NoiseListEvents(content))
  }

  function NoiseListEvents(ns: seq<Noise>): seq<Event>
    decreases ns, 1
  {
    if ns == [] then [] else NoiseEvents(ns[0]) + NoiseListEvents(ns[1..])
  }

  function TextEvents(texts: seq<string>): seq<Event> {
    seq(|texts|, i requires 0 <= i < |texts| => Text(texts[i]))
  }

  function MethodItemEvents(m: MethodItem): seq<Event> {
    match m
    case FieldItem(f, attrs, texts) => Element(FieldName(f), attrs, TextEvents(texts))
    case SidItem(attrs) => Element("sid", attrs, [])
    case MethodNoise(n) => NoiseEvents(n)
  }

  function MethodEvents(items: seq<MethodItem>): seq<Event> {
    if items == [] then [] else MethodEvents(items[..|items| - 1]) + MethodItemEvents(items[|items| - 1])
  }

  function GsmItemEvents(g: GsmItem): seq<Event> {
    match g
    case NetworkIdItem(attrs) => Element("network-id", attrs, [])
    case ApnItem(attrs, items) => Element("apn", attrs, MethodEvents(items))
    case GsmNoise(n) => NoiseEvents(n)
  }

  function GsmEvents(items: seq<GsmItem>): seq<Event> {
    if items == [] then [] else GsmEvents(items[..|items| - 1]) + GsmItemEvents(items[|items| - 1])
  }

  function ProviderItemEvents(p: ProviderItem): seq<Event> {
    match p
    case NameItem(attrs, texts) => Element("name", attrs, TextEvents(texts))
    case GsmItems(attrs, items) => Element("gsm", attrs, GsmEvents(items))
    case CdmaItem(attrs, items) => Element("cdma", attrs, MethodEvents(items))
    case ProviderNoise(n) => NoiseEvents(n)
  }

  function ProviderEvents(items: seq<ProviderItem>): seq<Event> {
    if items == [] then [] else ProviderEvents(items[..|items| - 1]) + ProviderItemEvents(items[|items| - 1])
  }

  function CountryItemEvents(c: CountryItem): seq<Event> {
    match c
    case ProviderElement(attrs, items) => Element("provider", attrs, ProviderEvents(items))
    case CountryNoise(n) => NoiseEvents(n)
  }

  function CountryEvents(items: seq<CountryItem>): seq<Event> {
    if items == [] then [] else CountryEvents(items[..|items| - 1]) + CountryItemEvents(items[|items| - 1])
  }

  function TopItemEvents(t: TopItem): seq<Event> {
    match t
    case CountryElement(attrs, items) => Element("country", attrs, CountryEvents(items))
    case TopNoise(n) => NoiseEvents(n)
  }

  function TopEvents(items: seq<TopItem>): seq<Event> {
    if items == [] then [] else TopEvents(items[..|items| - 1]) + TopItemEvents(items[|items| - 1])
  }

  function DocumentEvents(d: Document): seq<Event> {
    Element("serviceproviders", d.attrs, TopEvents(d.items))
  }

  predicate MethodItemOk(m: MethodItem) { m.MethodNoise? ==> Inert(m.noise) }

  predicate GsmItemOk(g: GsmItem) {
    match g
    case NetworkIdItem(_) => true
    case ApnItem(_, items) => forall i :: 0 <= i < |items| ==> MethodItemOk(items[i])
    case GsmNoise(n) => Inert(n)
  }

  predicate ProviderItemOk(p: ProviderItem) {
    match p
    case NameItem(_, _) => true
    case GsmItems(_, items) => forall i :: 0 <= i < |items| ==> GsmItemOk(items[i])
    case CdmaItem(_, items) => forall i :: 0 <= i < |items| ==> MethodItemOk(items[i])
    case ProviderNoise(n) => Inert(n)
  }

  predicate CountryItemOk(c: CountryItem) {
    match c
    case ProviderElement(_, items) => forall i :: 0 <= i < |items| ==> ProviderItemOk(items[i])
    case CountryNoise(n) => Inert(n)
  }

  predicate TopItemOk(t: TopItem) {
    match t
    case CountryElement(_, items) => forall i :: 0 <= i < |items| ==> CountryItemOk(items[i])
    case TopNoise(n) => Inert(n)
  }

  /** Noise is inert: the one condition on documents. */
  predicate DocumentOk(d: Document) {
    forall i :: 0 <= i < |d.items| ==> TopItemOk(d.items[i])
  }

  // ---- The meaning of a document ---------------------------------------------------

  /** The text of a field element is its last run of text; without any, the field is NULL. */
  function LastText(texts: seq<string>): Option<string> {
    if texts == [] then None else Some(texts[|texts| - 1])
  }

  /** The text of the last element of a kind, or NULL when there is none (or it is empty). */
  function LastField(items: seq<MethodItem>, f: Field): Option<string> {
    if items == [] then None
    else
      var m := items[|items| - 1];
      if m.FieldItem? && m.field == f then LastText(m.texts) else LastField(items[..|items| - 1], f)
  }

  /** The first name element that has text. */
  function FirstName(items: seq<MethodItem>): Option<string> {
    if items == [] then None
    else
      var m := items[|items| - 1];
      var before := FirstName(items[..|items| - 1]);
      if before.None? && m.FieldItem? && m.field == NameField then LastText(m.texts) else before
  }

  /** The dns elements in document order. */
  function DnsList(items: seq<MethodItem>): seq<Option<string>> {
    if items == [] then []
    else
      var m := items[|items| - 1];
      DnsList(items[..|items| - 1]) + if m.FieldItem? && m.field == DnsField then [LastText(m.texts)] else []
  }

  function SidList(items: seq<MethodItem>): seq<nat> {
    if items == [] then []
    else
      var m := items[|items| - 1];
      SidList(items[..|items| - 1]) + if m.SidItem? && Sid(m.sid).Some? then [Sid(m.sid).value] else []
  }

  function Or(a: Option<string>, b: Option<string>): Option<string> {
    if a.Some? then a else b
  }

  function MethodMeaning(items: seq<MethodItem>, name: Option<string>, apn: Option<string>, kind: MethodType): Method {
    Method(name, LastField(items, UsernameField), LastField(items, PasswordField), LastField(items, GatewayField),
           DnsList(items), apn, kind)
  }

  /** The method that an apn element with a value stands for */
  function ApnMeaning(attrs: Attributes, items: seq<MethodItem>): seq<Method> {
    match Attribute(attrs, "value")
    case None => []
    case Some(value) => [MethodMeaning(items, Or(FirstName(items), Some("Default")), Some(Strip(value)), Gsm)]
  }

  /** The value of the last attribute of that name; without any it counts as empty. */
  function Latest(attrs: Attributes, name: string): string {
    if attrs == [] then ""
    else
      var n := |attrs| - 1;
      if attrs[n].0 == name then attrs[n].1 else Latest(attrs[..n], name)
  }

  predicate BothGiven(attrs: Attributes) {
    Latest(attrs, "mcc") != "" && Latest(attrs, "mnc") != ""
  }

  /** The id of a network-id element, as soon as both its attributes have been given */
  function NetworkIdMeaning(attrs: Attributes): (r: seq<(string, string)>)
    ensures |r| <= 1
  {
    if attrs == [] then []
    else
      var before := NetworkIdMeaning(attrs[..|attrs| - 1]);
      if before == [] && BothGiven(attrs) then [(Strip(Latest(attrs, "mcc")), Strip(Latest(attrs, "mnc")))]
      else before
  }

  /** A gsm method per apn element with a value, in document order. */
  function GsmMethods(items: seq<GsmItem>): seq<Method> {
    if items == [] then []
    else
      var g := items[|items| - 1];
      GsmMethods(items[..|items| - 1]) + if g.ApnItem? then ApnMeaning(g.apn, g.items) else []
  }

  function GsmIds(items: seq<GsmItem>): seq<(string, string)> {
    if items == [] then []
    else
      var g := items[|items| - 1];
      GsmIds(items[..|items| - 1]) + if g.NetworkIdItem? then NetworkIdMeaning(g.id) else []
  }

  /** The first name element with text among the items read so far. */
  function ProviderName(items: seq<ProviderItem>): Option<string> {
    if items == [] then None
    else
      var p := items[|items| - 1];
      var before := ProviderName(items[..|items| - 1]);
      if before.None? && p.NameItem? then LastText(p.texts) else before
  }

  /** All methods in document order; a cdma method is named after its provider, as far as that is known by then. */
  function ProviderMethods(items: seq<ProviderItem>): seq<Method> {
    if items == [] then []
    else
      var p := items[|items| - 1];
      var front := items[..|items| - 1];
      ProviderMethods(front) +
      match p
      case GsmItems(_, g) => GsmMethods(g)
      case CdmaItem(_, c) => [MethodMeaning(c, ProviderName(front), None, Cdma)]
      case _ => []
  }

  function ProviderIds(items: seq<ProviderItem>): seq<(string, string)> {
    if items == [] then []
    else
      var p := items[|items| - 1];
      ProviderIds(items[..|items| - 1]) + if p.GsmItems? then GsmIds(p.gsm) else []
  }

  function ProviderSids(items: seq<ProviderItem>): seq<nat> {
    if items == [] then []
    else
      var p := items[|items| - 1];
      ProviderSids(items[..|items| - 1]) + if p.CdmaItem? then SidList(p.cdma) else []
  }

  function ProviderMeaning(items: seq<ProviderItem>): Provider {
    Provider(ProviderName(items), ProviderMethods(items), ProviderIds(items), ProviderSids(items))
  }

  /** The providers of a country, last one first. */
  function CountryMeaning(items: seq<CountryItem>): seq<Provider> {
    if items == [] then []
    else
      var c := items[|items| - 1];
      (if c.ProviderElement? then [ProviderMeaning(c.items)] else []) + CountryMeaning(items[..|items| - 1])
  }

  /** One entry per country element with a code; a later element of the same name replaces an earlier one. */
  function TopMeaning(codes: map<string, string>, items: seq<TopItem>): map<string, seq<Provider>> {
    if items == [] then map[]
    else
      var t := items[|items| - 1];
      var before := TopMeaning(codes, items[..|items| - 1]);
      if t.CountryElement? && Attribute(t.attrs, "code").Some?
      then before[CountryName(codes, Attribute(t.attrs, "code").value) := CountryMeaning(t.items)]
      else before
  }

  /** A database of another format than 2.0 yields nothing. */
  function Meaning(codes: map<string, string>, d: Document): map<string, seq<Provider>> {
    if BadFormat(d.attrs) then map[] else TopMeaning(codes, d.items)
  }
}
