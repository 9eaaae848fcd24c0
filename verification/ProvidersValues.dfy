/**
 * What the values of attributes mean: the leaves of the provider parser that
 * the machine and the reading of a document have in common, each in terms of
 * the text alone.
 */
module ProvidersValues {
  import opened Numerals
  import opened Wrappers

  import opened Providers
  import opened ProvidersModel

  // ---- Attributes -------------------------------------------------------------------

  /** The i-th attribute is the first one of that name. */
  predicate FirstAt(attrs: Attributes, name: string, i: nat) {
    i < |attrs| && attrs[i].0 == name && forall j :: 0 <= j < i ==> attrs[j].0 != name
  }

  /** Of several attributes of one name the first one counts. */
  lemma {:induction false} AttributeIs(attrs: Attributes, name: string)
    ensures Attribute(attrs, name).None? <==> forall i :: 0 <= i < |attrs| ==> attrs[i].0 != name
    ensures forall i: nat :: FirstAt(attrs, name, i) ==> Attribute(attrs, name) == Some(attrs[i].1)
  {
    if attrs != [] && attrs[0].0 != name {
      AttributeIs(attrs[1..], name);
      assert forall i :: 0 < i < |attrs| ==> attrs[i] == attrs[1..][i - 1];
      forall i: nat | FirstAt(attrs, name, i) ensures Attribute(attrs, name) == Some(attrs[i].1) {
        assert FirstAt(attrs[1..], name, i - 1);
      }
    }
  }

  // ---- Blanks -----------------------------------------------------------------------

  predicate AllSpace(s: string) {
    forall i :: 0 <= i < |s| ==> s[i] in {' ', '\t', '\n', '\r', 12 as char}
  }

  lemma {:induction false} ChugIs(s: string) returns (front: string)
    ensures s == front + Chug(s) && AllSpace(front)
    ensures Chug(s) == "" || !AllSpace([Chug(s)[0]])
  {
    if s != [] && IsSpace(s[0]) {
      var rest := ChugIs(s[1..]);
      front := [s[0]] + rest;
    } else {
      front := "";
      if s != "" { assert [s[0]][0] == s[0]; }
    }
  }

  lemma {:induction false} ChompIs(s: string) returns (back: string)
    ensures s == Chomp(s) + back && AllSpace(back)
    ensures Chomp(s) == "" || !AllSpace([Chomp(s)[|Chomp(s)| - 1]])
  {
    if s != [] && IsSpace(s[|s| - 1]) {
      var rest := ChompIs(s[..|s| - 1]);
      back := rest + [s[|s| - 1]];
    } else {
      back := "";
      if s != "" { assert [s[|s| - 1]][0] == s[|s| - 1]; }
    }
  }

  /** Stripping takes off blanks at both ends, all of them and nothing else. */
  lemma StripIs(s: string) returns (front: string, back: string)
    ensures s == front + Strip(s) + back && AllSpace(front) && AllSpace(back)
    ensures Strip(s) == "" || (!AllSpace([Strip(s)[0]]) && !AllSpace([Strip(s)[|Strip(s)| - 1]]))
  {
    front := ChugIs(s);
    back := ChompIs(Chug(s));
  }

  // ---- Network ids --------------------------------------------------------------------

  /**
   * A network-id element counts from the first attribute on up to which the
   * last mcc and the last mnc both have a value; these are its two parts, in
   * this order.
   */
  lemma NetworkIdIs(attrs: Attributes, k: nat)
    requires k <= |attrs|
    ensures NetworkIdMeaning(attrs) == [] <==> forall j :: 0 <= j <= |attrs| ==> !BothGiven(attrs[..j])
    ensures BothGiven(attrs[..k]) && (forall j :: 0 <= j < k ==> !BothGiven(attrs[..j])) ==>
            NetworkIdMeaning(attrs) == [(Strip(Latest(attrs[..k], "mcc")), Strip(Latest(attrs[..k], "mnc")))]
  {
    NetworkIdNever(attrs);
    if BothGiven(attrs[..k]) && forall j :: 0 <= j < k ==> !BothGiven(attrs[..j]) {
      NetworkIdFirst(attrs, k);
    }
  }

  lemma {:induction false} NetworkIdNever(attrs: Attributes)
    ensures NetworkIdMeaning(attrs) == [] <==> forall j :: 0 <= j <= |attrs| ==> !BothGiven(attrs[..j])
  {
    if attrs == [] {
      assert attrs[..0] == [];
    } else {
      var n := |attrs| - 1;
      NetworkIdNever(attrs[..n]);
      assert forall j :: 0 <= j <= n ==> attrs[..n][..j] == attrs[..j];
      assert attrs[..n + 1] == attrs;
    }
  }

  lemma {:induction false} NetworkIdFirst(attrs: Attributes, k: nat)
    requires k <= |attrs| && BothGiven(attrs[..k]) && forall j :: 0 <= j < k ==> !BothGiven(attrs[..j])
    ensures NetworkIdMeaning(attrs) == [(Strip(Latest(attrs[..k], "mcc")), Strip(Latest(attrs[..k], "mnc")))]
  {
    var n := |attrs| - 1;
    if k == |attrs| {
      assert attrs[..k] == attrs && attrs != [];
      NetworkIdNever(attrs[..n]);
      assert forall j :: 0 <= j <= n ==> attrs[..n][..j] == attrs[..j];
    } else {
      assert attrs[..n][..k] == attrs[..k] && forall j :: 0 <= j < k ==> attrs[..n][..j] == attrs[..j];
      NetworkIdFirst(attrs[..n], k);
    }
  }

  // ---- Numbers --------------------------------------------------------------------------

  lemma {:induction false} DigitsRead(before: string, ds: string, rest: string)
    requires AllDigits(before) && AllDigits(ds) && (rest == "" || !IsDigit(rest[0]))
    ensures AllDigits(before + ds) && Digits(ds + rest, Number(before)) == Number(before + ds)
    decreases ds
  {
    if ds == "" {
      assert before + ds == before && ds + rest == rest;
    } else {
      NumberSnoc(before, ds[0]);
      DigitsRead(before + [ds[0]], ds[1..], rest);
      assert (ds + rest)[1..] == ds[1..] + rest;
      assert before + [ds[0]] + ds[1..] == before + ds;
    }
  }

  predicate Blank(c: char) {
    c in {' ', '\t', '\n', '\r', 11 as char, 12 as char}
  }

  lemma {:induction false} SpaceSkipped(blanks: string, s: string)
    requires (forall i :: 0 <= i < |blanks| ==> Blank(blanks[i])) && (s == "" || !Blank(s[0]))
    ensures SkipSpace(blanks + s) == s
  {
    if blanks == "" {
      assert blanks + s == s;
    } else {
      assert (blanks + s)[1..] == blanks[1..] + s;
      SpaceSkipped(blanks[1..], s);
    }
  }

  /**
   * strtoul reads blanks, a sign and digits, whatever follows: the number, its
   * negative modulo 2^64, or an error if it does not fit.
   */
  lemma StrtoulReads(blanks: string, sign: string, ds: string, rest: string)
    requires (forall i :: 0 <= i < |blanks| ==> Blank(blanks[i])) && sign in {"", "+", "-"} && AllDigits(ds)
    requires rest == "" || (!IsDigit(rest[0]) && (ds == "" ==> !Blank(rest[0]) && rest[0] !in "+-"))
    ensures var n := Number(ds);
            Strtoul(blanks + sign + ds + rest) ==
            if n >= 0x1_0000_0000_0000_0000 then None
            else Some(if sign == "-" && n > 0 then 0x1_0000_0000_0000_0000 - n else n)
  {
    hide Number;
    hide Digits;
    hide SkipSpace;
    var s := sign + (ds + rest);
    assert blanks + sign + ds + rest == blanks + s;
    SignTaken(sign, ds, rest);
    SpaceSkipped(blanks, s);
    DigitsRead("", ds, rest);
    assert "" + ds == ds;
    NumberOfNothing();
  }

  lemma SignTaken(sign: string, ds: string, rest: string)
    requires sign in {"", "+", "-"} && AllDigits(ds)
    requires rest == "" || (!IsDigit(rest[0]) && (ds == "" ==> !Blank(rest[0]) && rest[0] !in "+-"))
    ensures var s := sign + (ds + rest);
            && (s == "" || !Blank(s[0]))
            && (s != [] && s[0] == '-' <==> sign == "-")
            && (if s != [] && s[0] in "+-" then s[1..] else s) == ds + rest
  {
    var t := ds + rest;
    assert t != "" ==> t[0] == if ds != "" then ds[0] else rest[0];
    assert "" + t == t && ("+" + t)[1..] == t && ("-" + t)[1..] == t;
    assert t != "" ==> !Blank(t[0]) && t[0] !in "+-";
  }

  lemma NumberOfNothing()
    ensures Number("") == 0
  {
  }

  /** A sid element counts if its first value is such a number and not zero; it is cut to 32 bits. */
  lemma SidIs(attrs: Attributes, i: nat, blanks: string, ds: string, rest: string)
    requires FirstAt(attrs, "value", i) && attrs[i].1 == blanks + ds + rest && AllDigits(ds)
    requires forall i :: 0 <= i < |blanks| ==> Blank(blanks[i])
    requires rest == "" || (!IsDigit(rest[0]) && (ds == "" ==> !Blank(rest[0]) && rest[0] !in "+-"))
    ensures var n := Number(ds);
            Sid(attrs) == if n == 0 || n >= 0x1_0000_0000_0000_0000 then None else Some(n % 0x1_0000_0000)
  {
    AttributeIs(attrs, "value");
    StrtoulReads(blanks, "", ds, rest);
    assert blanks + "" + ds + rest == blanks + ds + rest;
  }

  // ---- Countries ----------------------------------------------------------------------------

  /** Only the letters a to z change, each to its capital. */
  lemma {:induction false} UpperIs(s: string, i: nat)
    requires i < |s|
    ensures if 'a' <= s[i] <= 'z' then Upper(s)[i] as int - 'A' as int == s[i] as int - 'a' as int
            else Upper(s)[i] == s[i]
  {
    if i > 0 { UpperIs(s[1..], i - 1); }
  }

  /** A country is named as in the table of codes, under its code in capitals, or else by that code. */
  lemma CountryIs(codes: map<string, string>, attrs: Attributes, i: nat)
    requires FirstAt(attrs, "code", i)
    ensures var upper := Upper(attrs[i].1);
            StartElement(codes, INITIAL, "country", attrs) ==
            INITIAL.(state := InCountry, country := Some(if upper in codes then codes[upper] else upper))
  {
    AttributeIs(attrs, "code");
  }

  /** A database is refused if it names a format, once or more, that is not 2.0. */
  lemma FormatIs(codes: map<string, string>, attrs: Attributes)
    ensures StartElement(codes, INITIAL, "serviceproviders", attrs).state == Failed <==>
            exists i :: 0 <= i < |attrs| && attrs[i].0 == "format" && attrs[i].1 != "2.0"
  {
  }

  // ---- The text buffer --------------------------------------------------------------------------

  /** A start element empties the text buffer; an end element empties it or changes nothing at all. */
  lemma TextTaken(codes: map<string, string>, p: Parser, name: string, attrs: Attributes)
    requires Consistent(p)
    ensures StartElement(codes, p, name, attrs).text.None?
    ensures EndElement(p, name) == p || EndElement(p, name).text.None?
  {
  }
}
