/** The counter behind the %u in the filename of a screencast (src/shell-recorder.c). */
module RecorderNames {
  // ---- '', 'a', ..., 'z', 'aa', ... -----------------------------------------------------

  predicate Lower(s: string) {
    forall k :: 0 <= k < |s| ==> 'a' <= s[k] <= 'z'
  }

  function Digit(c: char): int {
    c as int - 'a' as int + 1
  }

  /** The string's place in the sequence: base 26 with the digits 1 to 26. */
  function Place(s: string): (n: nat)
    requires Lower(s)
    ensures n == 0 <==> s == ""
  {
    if s == "" then 0 else 26 * Place(s[..|s| - 1]) + Digit(s[|s| - 1])
  }

  /** The string at a place */
  function At(n: nat): (s: string)
    ensures Lower(s)
    decreases n
  {
    if n == 0 then "" else At((n - 1) / 26) + [((n - 1) % 26 + 'a' as int) as char]
  }

  /** Every place holds one string, and every string has one place. */
  lemma {:induction false} PlaceAt(n: nat)
    ensures Place(At(n)) == n
  {
    if n > 0 {
      PlaceAt((n - 1) / 26);
      var c := ((n - 1) % 26 + 'a' as int) as char;
      assert At(n)[..|At(n)| - 1] == At((n - 1) / 26);
    }
  }

  lemma {:induction false} AtPlace(s: string)
    requires Lower(s)
    ensures At(Place(s)) == s
  {
    if s != "" {
      var front, c := s[..|s| - 1], s[|s| - 1];
      AtPlace(front);
      var m := Place(s) - 1;
      assert m == 26 * Place(front) + (c as int - 'a' as int);
      assert m / 26 == Place(front) && m % 26 == c as int - 'a' as int;
      assert s == front + [c];
    }
  }

  function Times(c: char, n: nat): (s: string)
    ensures |s| == n && forall k :: 0 <= k < n ==> s[k] == c
  {
    if n == 0 then "" else Times(c, n - 1) + [c]
  }

  /** If a prefix moves up by one place and the rest rolls over from z to a, the whole moves up by one place. */
  lemma {:induction false} RollOver(p: string, q: string, n: nat)
    requires Lower(p) && Lower(q) && Place(q) == Place(p) + 1
    ensures Place(q + Times('a', n)) == Place(p + Times('z', n)) + 1
  {
    if n == 0 {
      assert q + Times('a', n) == q && p + Times('z', n) == p;
    } else {
      var r, s := q + Times('a', n), p + Times('z', n);
      assert r[..|r| - 1] == q + Times('a', n - 1) && s[..|s| - 1] == p + Times('z', n - 1);
      RollOver(p, q, n - 1);
    }
  }

  lemma LastDigit(p: string, c: char)
    requires Lower(p) && 'a' <= c <= 'z'
    ensures Place(p + [c]) == 26 * Place(p) + Digit(c)
  {
    assert (p + [c])[..|p|] == p;
  }

  /** increment_unique: the next string of the sequence. */
  method IncrementUnique(unique: string) returns (r: string)
    requires Lower(unique)
    ensures Lower(r) && Place(r) == Place(unique) + 1
  {
    hide Place;
    hide Digit;
    r := unique;
    var i := |r| - 1;
    while i >= 0
      invariant -1 <= i < |unique|
      invariant unique == unique[..i + 1] + Times('z', |unique| - i - 1)
      invariant r == unique[..i + 1] + Times('a', |unique| - i - 1)
    {
      var front, rest := unique[..i], |unique| - i - 1;
      assert unique[..i + 1] == front + [unique[i]];
      if r[i] != 'z' {
        r := r[i := (r[i] as int + 1) as char];
        assert r == front + [r[i]] + Times('a', rest) && unique == front + [unique[i]] + Times('z', rest);
        NextDigit(front, unique[i]);
        RollOver(front + [unique[i]], front + [r[i]], rest);
        return;
      } else {
        r := r[i := 'a'];
        RolledDigit(unique, r, i);
      }
      i := i - 1;
    }
    assert unique == "" + Times('z', |unique|) && "a" + r == "a" + Times('a', |unique|);
    FirstDigit();
    RollOver("", "a", |unique|);
    r := "a" + r;
  }

  lemma NextDigit(p: string, c: char)
    requires Lower(p) && 'a' <= c < 'z'
    ensures Place(p + [(c as int + 1) as char]) == Place(p + [c]) + 1
  {
    LastDigit(p, c);
    LastDigit(p, (c as int + 1) as char);
  }

  lemma FirstDigit()
    ensures Place("") == 0 && Place("a") == 1
  {
    assert "a"[..0] == "";
  }

  lemma RolledDigit(unique: string, r: string, i: nat)
    requires |r| == |unique| && i < |r| && unique[i] == 'z' && r[i] == 'a'
    requires r[..i] == unique[..i]
    requires unique[i + 1..] == Times('z', |unique| - i - 1) && r[i + 1..] == Times('a', |unique| - i - 1)
    ensures unique == unique[..i] + Times('z', |unique| - i) && r == unique[..i] + Times('a', |unique| - i)
  {
    assert r == r[..i] + [r[i]] + r[i + 1..];
  }
}
