/**
 * The parser object: its handlers update the fields, and every use of
 * current_provider or current_method is checked to find an object there.
 */
module ProvidersParser {
  import opened Wrappers
  import opened ProvidersModel
  import Providers
  import ProvidersDocument

  class MobileParser {
    const countryCodes: map<string, string>
    var table: map<string, seq<Provider>>
    var currentCountry: Option<string>
    var currentProviders: seq<Provider>
    var currentProvider: Option<Provider>
    var currentMethod: Option<Method>
    var textBuffer: Option<string>
    var state: State

    ghost function View(): Parser
      reads this
    {
      Parser(state, currentCountry, currentProviders, currentProvider, currentMethod, textBuffer, table)
    }

    constructor (codes: map<string, string>)
      ensures countryCodes == codes && View() == INITIAL
    {
      countryCodes := codes;
      table := map[];
      currentCountry, currentProvider, currentMethod, textBuffer := None, None, None, None;
      currentProviders := [];
      state := TopLevel;
    }

    method StartCountry(attrs: Attributes)
      modifies this
      ensures View() == ToplevelStart(countryCodes, old(View()), "country", attrs)
    {
      var i := 0;
      ghost var p := View();
      assert attrs[0..] == attrs;
      while i < |attrs|
        invariant 0 <= i <= |attrs| && View() == p
        invariant Attribute(attrs, "code") == Attribute(attrs[i..], "code")
      {
        if attrs[i].0 == "code" {
          currentCountry := Some(CountryName(countryCodes, attrs[i].1));
          state := InCountry;
          return;
        }
        i := i + 1;
      }
    }

    method StartServiceProviders(attrs: Attributes)
      modifies this
      ensures View() == ToplevelStart(countryCodes, old(View()), "serviceproviders", attrs)
    {
      ghost var p := View();
      for i := 0 to |attrs|
        invariant View() == p
        invariant forall k :: 0 <= k < i ==> !(attrs[k].0 == "format" && attrs[k].1 != "2.0")
      {
        if attrs[i].0 == "format" && attrs[i].1 != "2.0" {
          state := Failed;
          return;
        }
      }
    }

    method StartNetworkId(attrs: Attributes)
      requires currentProvider.Some?
      modifies this
      ensures View() == GsmStart(old(View()), "network-id", attrs)
    {
      var mcc, mnc := "", "";
      var i := 0;
      ghost var p := View();
      assert attrs[0..] == attrs;
      while i < |attrs|
        invariant 0 <= i <= |attrs| && View() == p
        invariant NetworkId(attrs, "", "") == NetworkId(attrs[i..], mcc, mnc)
      {
        if attrs[i].0 == "mcc" { mcc := attrs[i].1; }
        else if attrs[i].0 == "mnc" { mnc := attrs[i].1; }
        if mcc != "" && mnc != "" {
          var v := currentProvider.value;
          currentProvider := Some(v.(mccMnc := [(Strip(mcc), Strip(mnc))] + v.mccMnc));
          return;
        }
        i := i + 1;
      }
    }

    method StartApn(attrs: Attributes)
      requires currentProvider.Some?
      modifies this
      ensures View() == GsmStart(old(View()), "apn", attrs)
    {
      var i := 0;
      ghost var p := View();
      assert attrs[0..] == attrs;
      while i < |attrs|
        invariant 0 <= i <= |attrs| && View() == p
        invariant Attribute(attrs, "value") == Attribute(attrs[i..], "value")
      {
        if attrs[i].0 == "value" {
          state := InApn;
          currentMethod := Some(NEW_METHOD.(gsmApn := Some(Strip(attrs[i].1))));
          return;
        }
        i := i + 1;
      }
    }

    method StartSid(attrs: Attributes)
      requires currentProvider.Some?
      modifies this
      ensures View() == CdmaStart(old(View()), "sid", attrs)
    {
      var i := 0;
      ghost var p := View();
      assert attrs[0..] == attrs;
      while i < |attrs|
        invariant 0 <= i <= |attrs| && View() == p
        invariant Attribute(attrs, "value") == Attribute(attrs[i..], "value")
      {
        if attrs[i].0 == "value" {
          var n := Strtoul(attrs[i].1);
          if n.Some? && n.value > 0 {
            var v := currentProvider.value;
            currentProvider := Some(v.(sids := [n.value % 0x1_0000_0000] + v.sids));
          }
          return;
        }
        i := i + 1;
      }
    }

    /** mobile_parser_start_element */
    method OnStart(name: string, attrs: Attributes)
      requires Consistent(View())
      modifies this
      ensures View() == StartElement(countryCodes, old(View()), name, attrs) && Consistent(View())
    {
      hide Attribute;
      hide NetworkId;
      hide Sid;
      hide BadFormat;
      textBuffer := None;
      match state
      case TopLevel =>
        if name == "serviceproviders" { StartServiceProviders(attrs); }
        else if name == "country" { StartCountry(attrs); }
      case InCountry =>
        if name == "provider" {
          state := InProvider;
          currentProvider := Some(NEW_PROVIDER);
        }
      case InProvider =>
        if name == "gsm" {
          state := InGsm;
        } else if name == "cdma" {
          state := InCdma;
          currentMethod := Some(NEW_METHOD);
        }
      case InGsm =>
        if name == "network-id" { StartNetworkId(attrs); }
        else if name == "apn" { StartApn(attrs); }
      case InCdma =>
        if name == "sid" { StartSid(attrs); }
      case _ =>
    }

    method EndCountry()
      requires currentCountry.Some?
      modifies this
      ensures View() == CountryEnd(old(View()), "country")
    {
      table := table[currentCountry.value := currentProviders];
      currentCountry := None;
      currentProviders := [];
      textBuffer := None;
      state := TopLevel;
    }

    method EndProvider(name: string)
      requires currentProvider.Some?
      modifies this
      ensures View() == ProviderEnd(old(View()), name)
    {
      var v := currentProvider.value;
      if name == "name" {
        if v.name.None? {
          currentProvider := Some(v.(name := textBuffer));
          textBuffer := None;
        }
      } else if name == "provider" {
        v := v.(methods := Reverse(v.methods));
        v := v.(mccMnc := Reverse(v.mccMnc));
        v := v.(sids := Reverse(v.sids));
        currentProviders := [v] + currentProviders;
        currentProvider := None;
        textBuffer := None;
        state := InCountry;
      }
    }

    method EndMethod(kind: MethodType, default: Option<string>, next: State)
      requires currentProvider.Some? && currentMethod.Some?
      modifies this
      ensures View() == FinishMethod(old(View()), old(currentMethod).value, default, kind, next)
    {
      var m := currentMethod.value.(kind := kind);
      m := m.(dns := Reverse(m.dns));
      if m.name.None? { m := m.(name := default); }
      var v := currentProvider.value;
      currentProvider := Some(v.(methods := [m] + v.methods));
      currentMethod := None;
      textBuffer := None;
      state := next;
    }

    method EndField(name: string)
      requires currentMethod.Some? && IsField(name)
      modifies this
      ensures View() ==
              old(View()).(method_ := Some(FieldEnd(old(currentMethod).value, name, old(textBuffer))), text := None)
    {
      var m := currentMethod.value;
      if name == "username" { m := m.(username := textBuffer); }
      else if name == "password" { m := m.(password := textBuffer); }
      else if name == "dns" { m := m.(dns := [textBuffer] + m.dns); }
      else { m := m.(gateway := textBuffer); }
      currentMethod := Some(m);
      textBuffer := None;
    }

    /** mobile_parser_end_element */
    method OnEnd(name: string)
      requires Consistent(View())
      modifies this
      ensures View() == EndElement(old(View()), name) && Consistent(View())
    {
      hide FieldEnd;
      hide ProviderEnd;
      hide FinishMethod;
      hide IsField;
      ghost var p := View();
      ghost var result := EndElement(p, name);
      match state
      case InCountry => if name == "country" { EndCountry(); }
      case InProvider => EndProvider(name);
      case InGsm =>
        if name == "gsm" {
          textBuffer := None;
          state := InProvider;
        }
      case InApn =>
        if name == "name" {
          if currentMethod.value.name.None? {
            currentMethod := Some(currentMethod.value.(name := textBuffer));
            textBuffer := None;
          }
        } else if IsField(name) {
          EndField(name);
        } else if name == "apn" {
          EndMethod(Gsm, Some("Default"), InGsm);
        }
      case InCdma =>
        if IsField(name) { EndField(name); }
        else if name == "cdma" { EndMethod(Cdma, currentProvider.value.name, InProvider); }
      case _ =>
      assert View() == result;
    }

    /** mobile_parser_characters */
    method OnText(text: string)
      requires Consistent(View())
      modifies this
      ensures View() == old(View()).(text := Some(text)) && Consistent(View())
    {
      textBuffer := Some(text);
    }
  }

  /**
   * Feeds any sequence of events to a new parser. There is no precondition:
   * no handler can be reached in a state in which an object it uses is
   * missing.
   */
  method Parse(codes: map<string, string>, events: seq<Event>) returns (table: map<string, seq<Provider>>)
    ensures table == Run(codes, INITIAL, events).table
    ensures forall d :: Providers.DocumentOk(d) && events == Providers.DocumentEvents(d) ==>
              table == Providers.Meaning(codes, d)
  {
    hide StartElement;
    hide EndElement;
    hide Consistent;
    hide Providers.DocumentEvents;
    hide Providers.DocumentOk;
    hide Providers.Meaning;
    InitialConsistent();
    var parser := new MobileParser(codes);
    var i := 0;
    assert events[0..] == events;
    while i < |events|
      invariant 0 <= i <= |events|
      invariant parser.countryCodes == codes && Consistent(parser.View())
      invariant Run(codes, INITIAL, events) == Run(codes, parser.View(), events[i..])
    {
      match events[i] {
        case Start(name, attrs) => parser.OnStart(name, attrs);
        case End(name) => parser.OnEnd(name);
        case Text(text) => parser.OnText(text);
      }
      i := i + 1;
    }
    table := parser.table;
    forall d | Providers.DocumentOk(d) && events == Providers.DocumentEvents(d)
      ensures table == Providers.Meaning(codes, d)
    {
      ProvidersDocument.ParserReadsDocument(codes, d);
    }
  }

  lemma InitialConsistent()
    ensures Consistent(INITIAL)
  {
  }
}
