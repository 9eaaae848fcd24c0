/**
 * The order in which an application's windows are listed
 * (shell_app_compare_windows), with its 32-bit arithmetic.
 */
module WindowOrder {
  import opened Lists

  const GUINT32: int := 0x1_0000_0000
  const HALF: int := 0x8000_0000

  /**
   * What the comparison reads. User times are given without wrap-around; the
   * code sees them modulo 2^32.
   */
  datatype Desktop = Desktop(
    activeWorkspace: nat,
    workspace: map<nat, nat>,
    visible: set<nat>,
    userTime: map<nat, nat>)
  {
    function OnActive(w: nat): bool { w in workspace && workspace[w] == activeWorkspace }
    function Time(w: nat): nat { if w in userTime then userTime[w] else 0 }
  }

  /** A guint32 difference converted to int. */
  function Difference32(x: nat, y: nat): (d: int)
    ensures -HALF <= d < HALF
  {
    var u := (x % GUINT32 - y % GUINT32) % GUINT32;
    if u >= HALF then u - GUINT32 else u
  }

  /** shell_app_compare_windows */
  function Compare(d: Desktop, a: nat, b: nat): int
  {
    if d.OnActive(a) && !d.OnActive(b) then -1
    else if !d.OnActive(a) && d.OnActive(b) then 1
    else if a in d.visible && b !in d.visible then -1
    else if a !in d.visible && b in d.visible then 1
    else Difference32(d.Time(b), d.Time(a))
  }

  /** The documented order: on the active workspace first, then visible, then most recently used. */
  predicate Before(d: Desktop, a: nat, b: nat)
  {
    if d.OnActive(a) != d.OnActive(b) then d.OnActive(a)
    else if (a in d.visible) != (b in d.visible) then a in d.visible
    else d.Time(a) >= d.Time(b)
  }

  /** What the wrapped difference is, for values less than 2^32 apart. */
  lemma WrappedDifference(x: nat, y: nat)
    requires -GUINT32 < x - y < GUINT32
    ensures Difference32(x, y) == if x - y >= HALF then x - y - GUINT32
                                  else if x - y < -HALF then x - y + GUINT32
                                  else x - y
  {
    var u := (x % GUINT32 - y % GUINT32) % GUINT32;
    var q := x / GUINT32 - y / GUINT32;
    assert x % GUINT32 - y % GUINT32 == x - y - q * GUINT32;
    if x - y >= 0 {
      SameRemainder(x - y, -q, u);
    } else {
      SameRemainder(x - y + GUINT32, -q - 1, u);
    }
  }

  /** The wrapped difference is the true one exactly when the true one fits into an int. */
  lemma DifferenceSign(x: nat, y: nat)
    requires -GUINT32 < x - y < GUINT32
    ensures -HALF <= x - y < HALF <==> Difference32(x, y) == x - y
  {
    WrappedDifference(x, y);
  }

  lemma SameRemainder(r: int, k: int, u: int)
    requires 0 <= r < GUINT32 && u == (r + k * GUINT32) % GUINT32
    ensures u == r
  {
    var q := (r + k * GUINT32) / GUINT32;
    assert r + k * GUINT32 == q * GUINT32 + u;
    assert r - u == (q - k) * GUINT32;
  }

  /** User times less than 2^31 ms (about 24 days) apart. */
  predicate Near(d: Desktop, ws: seq<nat>) {
    forall i, j :: 0 <= i < |ws| && 0 <= j < |ws| ==> d.Time(ws[i]) - d.Time(ws[j]) < HALF
  }

  lemma CompareIsBefore(d: Desktop, ws: seq<nat>, a: nat, b: nat)
    requires Near(d, ws) && a in ws && b in ws
    ensures Compare(d, a, b) <= 0 <==> Before(d, a, b)
  {
    DifferenceSign(d.Time(b), d.Time(a));
  }

  /**
   * Exactly when the comparison says what is documented, for user times less
   * than 2^32 apart: the windows differ in workspace or visibility, or the
   * second one's time is at least 2^31 behind at most and less than 2^31
   * ahead. Otherwise the order is turned around.
   */
  lemma CompareExact(d: Desktop, a: nat, b: nat)
    requires -GUINT32 < d.Time(b) - d.Time(a) < GUINT32
    ensures (Compare(d, a, b) <= 0 <==> Before(d, a, b)) <==>
            || d.OnActive(a) != d.OnActive(b)
            || (a in d.visible) != (b in d.visible)
            || -HALF <= d.Time(b) - d.Time(a) < HALF
  {
    WrappedDifference(d.Time(b), d.Time(a));
  }

  // ---- Sorting ------------------------------------------------------------------

  ghost predicate Sorted(d: Desktop, ws: seq<nat>) {
    forall i, j :: 0 <= i < j < |ws| ==> Before(d, ws[i], ws[j])
  }

  /** Insertion behind everything that compares less or equal: stable, like g_slist_sort. */
  function Insert(d: Desktop, w: nat, ws: seq<nat>): (r: seq<nat>)
    ensures multiset(r) == multiset(ws) + multiset{w}
    ensures |r| == |ws| + 1
  {
    if ws == [] || Compare(d, ws[|ws| - 1], w) <= 0 then ws + [w]
    else
      var front := ws[..|ws| - 1];
      assert ws == front + [ws[|ws| - 1]];
      Insert(d, w, front) + [ws[|ws| - 1]]
  }

  function Sort(d: Desktop, ws: seq<nat>): (r: seq<nat>)
    ensures multiset(r) == multiset(ws)
  {
    if ws == [] then []
    else
      assert ws == ws[..|ws| - 1] + [ws[|ws| - 1]];
      Insert(d, ws[|ws| - 1], Sort(d, ws[..|ws| - 1]))
  }

  lemma InMultiset(ws: seq<nat>, w: nat)
    ensures w in ws <==> w in multiset(ws)
  {
  }

  lemma BeforePreorder(d: Desktop, a: nat, b: nat, c: nat)
    ensures Before(d, a, b) || Before(d, b, a)
    ensures Before(d, a, b) && Before(d, b, c) ==> Before(d, a, c)
  {
  }

  lemma {:induction false} InsertSorted(d: Desktop, w: nat, ws: seq<nat>, all: seq<nat>)
    requires Near(d, all) && w in all && (forall x :: x in ws ==> x in all) && Sorted(d, ws)
    ensures Sorted(d, Insert(d, w, ws))
  {
    hide Compare;
    hide Before;
    if ws != [] {
      var n := |ws| - 1;
      var last := ws[n];
      CompareIsBefore(d, all, last, w);
      if Compare(d, last, w) > 0 {
        var r := Insert(d, w, ws[..n]);
        InsertSorted(d, w, ws[..n], all);
        forall i | 0 <= i < |r| ensures Before(d, r[i], last) {
          InMultiset(r, r[i]);
          if r[i] == w { BeforePreorder(d, w, last, w); } else { InMultiset(ws[..n], r[i]); }
        }
      } else {
        forall i | 0 <= i < n ensures Before(d, ws[i], w) { BeforePreorder(d, ws[i], last, w); }
      }
    }
  }

  lemma {:induction false} SortSorted(d: Desktop, ws: seq<nat>, all: seq<nat>)
    requires Near(d, all) && forall x :: x in ws ==> x in all
    ensures Sorted(d, Sort(d, ws))
  {
    if ws != [] {
      var n := |ws| - 1;
      SortSorted(d, ws[..n], all);
      var s := Sort(d, ws[..n]);
      forall x | x in s ensures x in all {
        InMultiset(s, x);
        InMultiset(ws[..n], x);
      }
      InsertSorted(d, ws[n], s, all);
    }
  }

  lemma SortNear(d: Desktop, ws: seq<nat>)
    ensures Near(d, ws) ==> Sorted(d, Sort(d, ws))
  {
    if Near(d, ws) { SortSorted(d, ws, ws); }
  }

  // ---- What keeps a sorted list sorted ------------------------------------------------

  lemma {:induction false} WithoutSorted(d: Desktop, ws: seq<nat>, w: nat)
    requires Sorted(d, ws)
    ensures Sorted(d, Without(ws, w))
  {
    if ws != [] && ws[0] != w {
      WithoutSorted(d, ws[1..], w);
      var r := Without(ws[1..], w);
      forall j | 0 <= j < |r| ensures Before(d, ws[0], r[j]) {
        WithoutIn(ws[1..], w, r[j]);
        assert r[j] in ws[1..];
      }
    }
  }

  /**
   * A new user time of the first window, which does not mark the list stale:
   * the list is still sorted if and only if the first window does not fall
   * behind the second.
   */
  lemma HeadTimeChange(d: Desktop, ws: seq<nat>, t: nat)
    requires Sorted(d, ws) && ws != [] && forall i :: 0 < i < |ws| ==> ws[i] != ws[0]
    ensures var e := d.(userTime := d.userTime[ws[0] := t]);
            Sorted(e, ws) <==> (|ws| >= 2 ==> Before(e, ws[0], ws[1]))
  {
    var e := d.(userTime := d.userTime[ws[0] := t]);
    forall i, j | 0 < i < j < |ws| ensures Before(e, ws[i], ws[j]) { assert Before(d, ws[i], ws[j]); }
    if |ws| >= 2 && Before(e, ws[0], ws[1]) {
      forall j | 0 < j < |ws| ensures Before(e, ws[0], ws[j]) {
        if j > 1 { assert Before(e, ws[1], ws[j]); }
      }
    }
  }

  /** In particular, a growing user time of the first window keeps the list sorted. */
  lemma HeadTimeGrows(d: Desktop, ws: seq<nat>, t: nat)
    requires Sorted(d, ws) && ws != [] && (forall i :: 0 < i < |ws| ==> ws[i] != ws[0]) && t >= d.Time(ws[0])
    ensures Sorted(d.(userTime := d.userTime[ws[0] := t]), ws)
  {
    HeadTimeChange(d, ws, t);
    if |ws| >= 2 { assert Before(d, ws[0], ws[1]); }
  }

  /** User times of windows that are not listed do not matter. */
  lemma OtherTime(d: Desktop, ws: seq<nat>, w: nat, t: nat)
    requires w !in ws && Sorted(d, ws)
    ensures Sorted(d.(userTime := d.userTime[w := t]), ws)
  {
    var e := d.(userTime := d.userTime[w := t]);
    forall i, j | 0 <= i < j < |ws| ensures Before(e, ws[i], ws[j]) { assert Before(d, ws[i], ws[j]); }
  }
}
