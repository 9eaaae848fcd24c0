/**
 * The event-driven parser of the mobile broadband provider database
 * (src/shell-mobile-providers.c) as a state machine on values: what each
 * start-element, end-element and text event does to the parser.
 */
module ProvidersModel {
  import opened Wrappers

  type Attributes = seq<(string, string)>

  datatype MethodType = Unknown | Gsm | Cdma

  /** ShellMobileAccessMethod. A NULL string is None. */
  datatype Method = Method(
    name: Option<string>, username: Option<string>, password: Option<string>, gateway: Option<string>,
    dns: seq<Option<string>>, gsmApn: Option<string>, kind: MethodType)

  /** ShellMobileProvider. */
  datatype Provider = Provider(
    name: Option<string>, methods: seq<Method>, mccMnc: seq<(string, string)>, sids: seq<nat>)

  const NEW_METHOD := Method(None, None, None, None, [], None, Unknown)
  const NEW_PROVIDER := Provider(None, [], [], [])

  datatype State = TopLevel | InCountry | InProvider | InGsm | InApn | InCdma | Failed

  /** MobileParser. The lists under construction are in reverse order. */
  datatype Parser = Parser(
    state: State,
    country: Option<string>,
    providers: seq<Provider>,
    provider: Option<Provider>,
    method_: Option<Method>,
    text: Option<string>,
    table: map<string, seq<Provider>>)

  const INITIAL := Parser(TopLevel, None, [], None, None, None, map[])

  /** The state alone says which of the objects under construction exist. */
  predicate Consistent(p: Parser) {
    && (p.country.Some? <==> p.state in {InCountry, InProvider, InGsm, InApn, InCdma})
    && (p.provider.Some? <==> p.state in {InProvider, InGsm, InApn, InCdma})
    && (p.method_.Some? <==> p.state in {InApn, InCdma})
  }

  // ---- Text helpers -----------------------------------------------------------

  function Reverse<T>(s: seq<T>): (r: seq<T>)
    ensures |r| == |s|
  {
    if s == [] then [] else Reverse(s[1..]) + [s[0]]
  }

  /** The first value of an attribute, as the loops over attribute_names find it. */
  function Attribute(attrs: Attributes, name: string): (r: Option<string>)
  {
    if attrs == [] then None
    else if attrs[0].0 == name then Some(attrs[0].1)
    else Attribute(attrs[1..], name)
  }

  predicate IsSpace(c: char) {
    c in " \t\n\r" || c == 12 as char
  }

  function Chug(s: string): string {
    if s != [] && IsSpace(s[0]) then Chug(s[1..]) else s
  }

  function Chomp(s: string): string {
    if s != [] && IsSpace(s[|s| - 1]) then Chomp(s[..|s| - 1]) else s
  }

  /** g_strstrip */
  function Strip(s: string): string {
    Chomp(Chug(s))
  }

  /** g_ascii_strup */
  function Upper(s: string): (r: string)
    ensures |r| == |s|
  {
    if s == [] then []
    else [if 'a' <= s[0] <= 'z' then (s[0] as int - 32) as char else s[0]] + Upper(s[1..])
  }

  const ULONG_MAX: int := 0xffff_ffff_ffff_ffff

  /** The value of the leading digits of s. */
  function Digits(s: string, acc: nat): nat {
    if s != [] && '0' <= s[0] <= '9' then Digits(s[1..], 10 * acc + (s[0] as int - '0' as int)) else acc
  }

  function SkipSpace(s: string): string {
    if s != [] && (IsSpace(s[0]) || s[0] == 11 as char) then SkipSpace(s[1..]) else s
  }

  /** strtoul (s, NULL, 10) on a machine with 64-bit longs; None when errno is set. */
  function Strtoul(s: string): (r: Option<nat>)
  {
    var t := SkipSpace(s);
    var negative := t != [] && t[0] == '-';
    var v := Digits(if t != [] && t[0] in "+-" then t[1..] else t, 0);
    if v > ULONG_MAX then None else Some(if negative && v > 0 then ULONG_MAX + 1 - v else v)
  }

  // ---- Start of an element ------------------------------------------------------

  function ToplevelStart(codes: map<string, string>, p: Parser, name: string, attrs: Attributes): Parser {
    if name == "serviceproviders" then
      if BadFormat(attrs) then p.(state := Failed) else p
    else if name == "country" then
      match Attribute(attrs, "code")
      case None => p
      case Some(code) => p.(country := Some(CountryName(codes, code)), state := InCountry)
    else p
  }

  /** Some format attribute differs from 2.0. */
  function BadFormat(attrs: Attributes): bool {
    exists i :: 0 <= i < |attrs| && attrs[i].0 == "format" && attrs[i].1 != "2.0"
  }

  function CountryName(codes: map<string, string>, code: string): string {
    var upper := Upper(code);
    if upper in codes then codes[upper] else upper
  }

  function CountryStart(p: Parser, name: string): Parser {
    if name == "provider" then p.(state := InProvider, provider := Some(NEW_PROVIDER)) else p
  }

  function ProviderStart(p: Parser, name: string): Parser {
    if name == "gsm" then p.(state := InGsm)
    else if name == "cdma" then p.(state := InCdma, method_ := Some(NEW_METHOD))
    else p
  }

  /**
   * The mcc and mnc of a network-id element: the loop stops at the first
   * attribute after which both are non-empty.
   */
  function NetworkId(attrs: Attributes, mcc: string, mnc: string): Option<(string, string)> {
    if attrs == [] then None
    else
      var mcc' := if attrs[0].0 == "mcc" then attrs[0].1 else mcc;
      var mnc' := if attrs[0].0 == "mnc" then attrs[0].1 else mnc;
      if mcc' != "" && mnc' != "" then Some((Strip(mcc'), Strip(mnc'))) else NetworkId(attrs[1..], mcc', mnc')
  }

  function GsmStart(p: Parser, name: string, attrs: Attributes): Parser
    requires p.provider.Some?
  {
    if name == "network-id" then
      match NetworkId(attrs, "", "")
      case None => p
      case Some(id) => p.(provider := Some(p.provider.value.(mccMnc := [id] + p.provider.value.mccMnc)))
    else if name == "apn" then
      match Attribute(attrs, "value")
      case None => p
      case Some(value) => p.(state := InApn, method_ := Some(NEW_METHOD.(gsmApn := Some(Strip(value)))))
    else p
  }

  /** The SID of a sid element, cut to 32 bits. */
  function Sid(attrs: Attributes): Option<nat> {
    match Attribute(attrs, "value")
    case None => None
    case Some(value) =>
      match Strtoul(value)
      case None => None
      case Some(n) => if n > 0 then Some(n % 0x1_0000_0000) else None
  }

  function CdmaStart(p: Parser, name: string, attrs: Attributes): Parser
    requires p.provider.Some?
  {
    if name == "sid" && Sid(attrs).Some?
    then p.(provider := Some(p.provider.value.(sids := [Sid(attrs).value] + p.provider.value.sids)))
    else p
  }

  function StartElement(codes: map<string, string>, q: Parser, name: string, attrs: Attributes): (r: Parser)
    requires Consistent(q)
    ensures Consistent(r)
  {
    var p := q.(text := None);
    match p.state
    case TopLevel => ToplevelStart(codes, p, name, attrs)
    case InCountry => CountryStart(p, name)
    case InProvider => ProviderStart(p, name)
    case InGsm => GsmStart(p, name, attrs)
    case InCdma => CdmaStart(p, name, attrs)
    case _ => p
  }

  // ---- End of an element --------------------------------------------------------

  function CountryEnd(p: Parser, name: string): Parser
    requires p.country.Some?
  {
    if name == "country"
    then p.(table := p.table[p.country.value := p.providers], country := None, providers := [], text := None,
            state := TopLevel)
    else p
  }

  function ProviderEnd(p: Parser, name: string): Parser
    requires p.provider.Some?
  {
    var v := p.provider.value;
    if name == "name" then
      if v.name.None? then p.(provider := Some(v.(name := p.text)), text := None) else p
    else if name == "provider" then
      var done := v.(methods := Reverse(v.methods), mccMnc := Reverse(v.mccMnc), sids := Reverse(v.sids));
      p.(providers := [done] + p.providers, provider := None, text := None, state := InCountry)
    else p
  }

  function GsmEnd(p: Parser, name: string): Parser {
    if name == "gsm" then p.(text := None, state := InProvider) else p
  }

  /** username, password, dns and gateway, which gsm and cdma treat alike. */
  function FieldEnd(m: Method, name: string, text: Option<string>): Method {
    if name == "username" then m.(username := text)
    else if name == "password" then m.(password := text)
    else if name == "dns" then m.(dns := [text] + m.dns)
    else if name == "gateway" then m.(gateway := text)
    else m
  }

  predicate IsField(name: string) {
    name in {"username", "password", "dns", "gateway"}
  }

  function FinishMethod(p: Parser, m: Method, default: Option<string>, kind: MethodType, state: State): Parser
    requires p.provider.Some?
  {
    var v := p.provider.value;
    var done := m.(kind := kind, dns := Reverse(m.dns), name := if m.name.None? then default else m.name);
    p.(provider := Some(v.(methods := [done] + v.methods)), method_ := None, text := None, state := state)
  }

  function ApnEnd(p: Parser, name: string): Parser
    requires p.provider.Some? && p.method_.Some?
  {
    var m := p.method_.value;
    if name == "name" then
      if m.name.None? then p.(method_ := Some(m.(name := p.text)), text := None) else p
    else if IsField(name) then p.(method_ := Some(FieldEnd(m, name, p.text)), text := None)
    else if name == "apn" then FinishMethod(p, m, Some("Default"), Gsm, InGsm)
    else p
  }

  function CdmaEnd(p: Parser, name: string): Parser
    requires p.provider.Some? && p.method_.Some?
  {
    var m := p.method_.value;
    if IsField(name) then p.(method_ := Some(FieldEnd(m, name, p.text)), text := None)
    else if name == "cdma" then FinishMethod(p, m, p.provider.value.name, Cdma, InProvider)
    else p
  }

  function EndElement(p: Parser, name: string): (r: Parser)
    requires Consistent(p)
    ensures Consistent(r)
  {
    match p.state
    case InCountry => CountryEnd(p, name)
    case InProvider => ProviderEnd(p, name)
    case InGsm => GsmEnd(p, name)
    case InApn => ApnEnd(p, name)
    case InCdma => CdmaEnd(p, name)
    case _ => p
  }

  // ---- Runs -----------------------------------------------------------------------

  datatype Event = Start(name: string, attrs: Attributes) | End(name: string) | Text(text: string)

  function Step(codes: map<string, string>, p: Parser, e: Event): (r: Parser)
    requires Consistent(p)
    ensures Consistent(r)
  {
    match e
    case Start(name, attrs) => StartElement(codes, p, name, attrs)
    case End(name) => EndElement(p, name)
    case Text(text) => p.(text := Some(text))
  }

  /** Whatever events arrive, in whatever order, the parser stays consistent. */
  function Run(codes: map<string, string>, p: Parser, events: seq<Event>): (r: Parser)
    requires Consistent(p)
    ensures Consistent(r)
    decreases events
  {
    if events == [] then p else Run(codes, Step(codes, p, events[0]), events[1..])
  }
}
