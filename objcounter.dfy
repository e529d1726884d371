/** The debug-build object-leak counter: a per-type count of live objects,
    the indexes handed out to them, and the leak report written when the
    counter itself is destroyed. */
module ObjCounter {
  import opened Wrappers
  import opened CInt

  /** At most this many leaked indexes are listed in a leak report. */
  const MaxLeakedIndexesDisplayed: nat := 20

  // ---------------------------------------------------------------------
  // Decimal rendering of an int, as C++ stream insertion writes it.
  // ---------------------------------------------------------------------

  function DigitChar(d: int): (c: char)
    requires 0 <= d < 10
    ensures '0' <= c <= '9'
    ensures c as int - '0' as int == d
  {
    ('0' as int + d) as char
  }

  function NatDecimal(n: nat): string
  {
    if n < 10 then [DigitChar(n)] else NatDecimal(n / 10) + [DigitChar(n % 10)]
  }

  ghost predicate AllDigits(s: string)
  {
    forall k :: 0 <= k < |s| ==> '0' <= s[k] <= '9'
  }

  lemma {:induction false} NatDecimalDigits(n: nat)
    ensures AllDigits(NatDecimal(n))
  {
    if n >= 10 {
      NatDecimalDigits(n / 10);
      var r := NatDecimal(n);
      forall k | 0 <= k < |r| ensures '0' <= r[k] <= '9' {
        if k < |r| - 1 {
          assert r[k] == NatDecimal(n / 10)[k];
        }
      }
    }
  }

  function Decimal(i: int): string
  {
    if i < 0 then "-" + NatDecimal(-i) else NatDecimal(i)
  }

  /** The value of a string of decimal digits. */
  function ParseNat(s: string): nat
    requires AllDigits(s)
  {
    if s == [] then 0 else ParseNat(s[..|s| - 1]) * 10 + DigitValue(s[|s| - 1])
  }

  function DigitValue(c: char): (d: nat)
    requires '0' <= c <= '9'
    ensures d < 10
  {
    c as int - '0' as int
  }

  function ParseInt(s: string): int
    requires |s| >= 1
    requires AllDigits(s[1..])
    requires s[0] == '-' || '0' <= s[0] <= '9'
  {
    if s[0] == '-' then 0 - ParseNat(s[1..]) else ParseNat(s)
  }

  lemma {:induction false} NatDecimalRoundTrip(n: nat)
    ensures AllDigits(NatDecimal(n)) && ParseNat(NatDecimal(n)) == n
  {
    NatDecimalDigits(n);
    var r := NatDecimal(n);
    if n < 10 {
      assert r == [DigitChar(n)];
      assert r[..0] == [];
    } else {
      assert r == NatDecimal(n / 10) + [DigitChar(n % 10)];
      assert r[..|r| - 1] == NatDecimal(n / 10);
      NatDecimalRoundTrip(n / 10);
      assert DigitValue(r[|r| - 1]) == n % 10;
    }
  }

  /** The rendering loses nothing: reading it back gives the number, so two
      different indexes never render alike. */
  lemma DecimalRoundTrip(i: int)
    ensures var r := Decimal(i);
            |r| >= 1 && (r[0] == '-' || '0' <= r[0] <= '9') &&
            AllDigits(r[1..]) &&
            ParseInt(r) == i
  {
    var r := Decimal(i);
    if i < 0 {
      var t := NatDecimal(-i);
      assert r == "-" + t;
      assert r[1..] == t;
      NatDecimalRoundTrip(-i);
    } else {
      NatDecimalRoundTrip(i);
      assert AllDigits(r[1..]) by {
        forall k | 0 <= k < |r| - 1 ensures '0' <= r[1..][k] <= '9' {
          assert r[1..][k] == r[k + 1];
        }
      }
      assert '0' <= r[0] <= '9';
    }
  }

  // ---------------------------------------------------------------------
  // The live indexes. The C++ Counter keeps them in an ordered set of ints; the
  // model keeps them as a strictly increasing sequence, which is that set
  // in the order the C++ Counter iterates it.
  // ---------------------------------------------------------------------

  ghost predicate StrictlyIncreasing(r: seq<int>)
  {
    forall i, j :: 0 <= i < j < |r| ==> r[i] < r[j]
  }

  /** Erasing the element at position k of a strictly increasing sequence
      leaves one shorter, still strictly increasing, holding exactly the
      other elements. */
  lemma RemoveAtSorted(r: seq<int>, k: nat)
    requires StrictlyIncreasing(r) && k < |r|
    ensures |r[..k] + r[k + 1..]| == |r| - 1
    ensures StrictlyIncreasing(r[..k] + r[k + 1..])
    ensures forall x :: x in r[..k] + r[k + 1..] <==> x in r && x != r[k]
  {
    var t := r[..k] + r[k + 1..];
    assert forall i :: 0 <= i < |t| ==> t[i] == (if i < k then r[i] else r[i + 1]);
    forall x ensures x in t <==> x in r && x != r[k] {
      if x in t {
        var i :| 0 <= i < |t| && t[i] == x;
        assert x != r[k];
      }
      if x in r && x != r[k] {
        var j :| 0 <= j < |r| && r[j] == x;
        if j < k {
          assert t[j] == x;
        } else {
          assert t[j - 1] == x;
        }
      }
    }
  }

  // ---------------------------------------------------------------------
  // The text of leakedIxsAsString().
  // ---------------------------------------------------------------------

  /** The rendering of each number of `xs`, in order. */
  function Rendered(xs: seq<int>): seq<string>
  {
    seq(|xs|, k requires 0 <= k < |xs| => Decimal(xs[k]))
  }

  /** Rendering loses nothing: two lists of indexes render alike only when
      they are the same list. */
  lemma RenderedInjective(xs: seq<int>, ys: seq<int>)
    requires Rendered(xs) == Rendered(ys)
    ensures xs == ys
  {
    forall k | 0 <= k < |xs| ensures xs[k] == ys[k] {
      DecimalRoundTrip(xs[k]);
      DecimalRoundTrip(ys[k]);
      assert Decimal(xs[k]) == Rendered(xs)[k] == Rendered(ys)[k] == Decimal(ys[k]);
    }
  }

  /** The parts in order, separated by ", ", built as leakedIxsAsString's loop
      builds it: each part after the first is preceded by the separator. */
  function Joined(parts: seq<string>): string
  {
    if parts == [] then ""
    else Joined(parts[..|parts| - 1]) + (if |parts| == 1 then "" else ", ") + parts[|parts| - 1]
  }

  /** Read from the front, Joined is the usual separator join. */
  lemma {:induction false} JoinedCons(p: string, ps: seq<string>)
    ensures Joined([p] + ps) == p + (if ps == [] then "" else ", " + Joined(ps))
    decreases |ps|
  {
    if ps == [] {
      assert [p] + ps == [p];
      assert [p][..0] == [];
    } else {
      var qs := [p] + ps;
      var init, last := ps[..|ps| - 1], ps[|ps| - 1];
      assert qs[..|qs| - 1] == [p] + init;
      assert qs[|qs| - 1] == last;
      assert Joined(qs) == Joined([p] + init) + ", " + last;
      JoinedCons(p, init);
      if init == [] {
        assert Joined(ps) == Joined(init) + "" + last;
      } else {
        assert Joined(ps) == Joined(init) + ", " + last;
      }
    }
  }

  /** The leak list: the first twenty entries of `xs`, then ", ..." whenever
      twenty or more entries exist (so also when there are exactly twenty). */
  function LeakedList(xs: seq<int>): string
  {
    var shown := if |xs| < MaxLeakedIndexesDisplayed then |xs| else MaxLeakedIndexesDisplayed;
    Joined(Rendered(xs[..shown])) + (if |xs| >= MaxLeakedIndexesDisplayed then ", ..." else "")
  }

  /** Entries past the twentieth never change the leak list. */
  lemma LeakedListCapped(xs: seq<int>, more: seq<int>)
    requires |xs| >= MaxLeakedIndexesDisplayed
    ensures LeakedList(xs + more) == LeakedList(xs)
  {
    assert (xs + more)[..MaxLeakedIndexesDisplayed] == xs[..MaxLeakedIndexesDisplayed];
  }

  /** Below the cap every entry is listed and nothing is appended. */
  lemma LeakedListBelowCap(xs: seq<int>)
    requires |xs| < MaxLeakedIndexesDisplayed
    ensures LeakedList(xs) == Joined(Rendered(xs))
  {
    assert xs[..|xs|] == xs;
  }


  lemma RenderedSnoc(xs: seq<int>, n: nat)
    requires n < |xs|
    ensures Rendered(xs[..n + 1]) == Rendered(xs[..n]) + [Decimal(xs[n])]
  {
  }

  lemma JoinedSnoc(parts: seq<string>, p: string)
    ensures Joined(parts + [p]) == Joined(parts) + (if parts == [] then "" else ", ") + p
  {
    assert (parts + [p])[..|parts|] == parts;
  }

  /** Where the walk stops: after twenty entries or at the end of the list,
      and either way what was written is what LeakedList lists. */
  lemma LeakedListShown(asc: seq<int>, n: nat)
    requires n <= |asc|
    requires n == MaxLeakedIndexesDisplayed || n == |asc|
    requires n <= MaxLeakedIndexesDisplayed
    ensures LeakedList(asc)
         == Joined(Rendered(asc[..n])) + (if n >= MaxLeakedIndexesDisplayed then ", ..." else "")
  {
  }

  /** What the destructor logs about a counter with live objects. */
  datatype LeakReport = LeakReport(name: string, total: int, max: int, count: int, leakedIndexes: string)

  class Counter {
    var count: int
    var name: string
    /** The live indexes, smallest first. */
    var indexes: seq<int>
    /** Total number of instances ever created. */
    var total: int
    var max: int

    /** The invariant the destructor asserts (one live index per live object),
        with the facts that keep it: the indexes are distinct and ordered,
        every index handed out lies in 1..total, and max follows total. */
    ghost predicate Valid()
      reads this
    {
      && StrictlyIncreasing(indexes)
      && |indexes| == count
      && 0 <= total && max == total
      && forall k :: 0 <= k < |indexes| ==> 1 <= indexes[k] <= total
    }

    constructor ()
      ensures Valid()
      ensures count == 0 && total == 0 && max == 0
      ensures indexes == [] && name == ""
    {
      count, total, max := 0, 0, 0;
      indexes := [];
      name := "";
    }

    /** The first name given is kept. */
    method SetName(n: string)
      modifies this`name
      ensures name == if old(name) == "" then n else old(name)
    {
      if name == "" {
        name := n;
      }
    }

    /** Registers one more live object and hands out its index: the new
        total, larger than every index handed out before, so it never
        collides with a live one even after earlier ones were removed. */
    method Inc(n: string, breakIndex: int) returns (ix: int)
      requires Valid()
      requires total < IntMax
      modifies this
      ensures Valid()
      ensures total == old(total) + 1 && count == old(count) + 1
      ensures ix == total && max == total
      ensures ix !in old(indexes)
      ensures indexes == old(indexes) + [ix]
      ensures name == if old(name) == "" then n else old(name)
    {
      SetName(n);
      total := total + 1;
      count := count + 1;
      ix := total;
      max := total;
      indexes := indexes + [ix];
    }

    /** Unregisters a live object. An index that is not live makes the
        C++ Counter's assertion fail, so callers must pass a live one. */
    method RemoveIndex(index: int)
      requires Valid()
      requires index in indexes
      modifies this
      ensures Valid()
      ensures count == old(count) - 1
      ensures forall x :: x in indexes <==> x in old(indexes) && x != index
      ensures exists k :: 0 <= k < |old(indexes)| && old(indexes)[k] == index &&
                          indexes == old(indexes)[..k] + old(indexes)[k + 1..]
      ensures total == old(total) && max == old(max) && name == old(name)
    {
      count := count - 1;
      if index !in indexes {
        assert false;
      } else {
        var k :| 0 <= k < |indexes| && indexes[k] == index;
        RemoveAtSorted(indexes, k);
        indexes := indexes[..k] + indexes[k + 1..];
      }
    }

    /** The live indexes, smallest first, capped at twenty entries. */
    method LeakedIxsAsString() returns (s: string)
      ensures s == LeakedList(indexes)
    {
      var xs := indexes;
      s := "";
      var n := 0;
      while n < |xs| && n < MaxLeakedIndexesDisplayed
        invariant n <= MaxLeakedIndexesDisplayed && n <= |xs|
        invariant s == Joined(Rendered(xs[..n]))
      {
        RenderedSnoc(xs, n);
        JoinedSnoc(Rendered(xs[..n]), Decimal(xs[n]));
        s := s + (if n == 0 then "" else ", ") + Decimal(xs[n]);
        n := n + 1;
      }
      LeakedListShown(xs, n);
      if n >= MaxLeakedIndexesDisplayed {
        s := s + ", ...";
      }
    }

    /** The destructor: checks the invariant and reports a leak exactly when
        objects are still live. */
    method Destroy() returns (report: Option<LeakReport>)
      requires Valid()
      ensures report.Some? <==> indexes != []
      ensures report.Some? ==> report.value == LeakReport(name, total, max, count, LeakedList(indexes))
    {
      report := None;
      assert |indexes| == count;
      if count > 0 {
        var leaked := LeakedIxsAsString();
        report := Some(LeakReport(name, total, max, count, leaked));
      } else if count < 0 {
        assert false;
      }
    }
  }

  /** A client: indexes are never reused, even after an earlier one is
      removed, and the first name sticks. */
  method IndexesNeverRepeat()
  {
    var c := new Counter();
    var a := c.Inc("Order", 0);
    var b := c.Inc("Trade", 0);
    c.RemoveIndex(a);
    var d := c.Inc("Order", 0);
    assert a < b < d;
    assert c.indexes == [b, d] && c.count == 2;
    c.RemoveIndex(d);
    assert c.indexes == [b];
    assert c.name == "Order";
  }
}
