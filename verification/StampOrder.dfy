/** The order every list of the weekly report is sorted in: time, sequence number, event id. */
module StampOrder {
  datatype Stamp = Stamp(time: int, seqNo: int, id: string)

  predicate StringBefore(a: string, b: string) {
    if b == "" then false
    else if a == "" then true
    else if a[0] != b[0] then a[0] < b[0]
    else StringBefore(a[1..], b[1..])
  }

  predicate Before(a: Stamp, b: Stamp) {
    a.time < b.time || (a.time == b.time && a.seqNo < b.seqNo)
    || (a.time == b.time && a.seqNo == b.seqNo && StringBefore(a.id, b.id))
  }

  lemma {:induction false} StringsTransitive(a: string, b: string, c: string)
    requires StringBefore(a, b) && StringBefore(b, c)
    ensures StringBefore(a, c)
    decreases |b|
  {
    if a != "" && a[0] == b[0] && b[0] == c[0] {
      StringsTransitive(a[1..], b[1..], c[1..]);
    }
  }

  lemma {:induction false} StringIrreflexive(s: string)
    ensures !StringBefore(s, s)
  {
    if s != "" { StringIrreflexive(s[1..]); }
  }

  lemma Transitive(a: Stamp, b: Stamp, c: Stamp)
    requires Before(a, b) && Before(b, c)
    ensures Before(a, c)
  {
    if StringBefore(a.id, b.id) && StringBefore(b.id, c.id) {
      StringsTransitive(a.id, b.id, c.id);
    }
  }

  lemma Irreflexive(x: Stamp)
    ensures !Before(x, x)
  {
    StringIrreflexive(x.id);
  }

  /** `a` and `b` are alike up to `k`, where `a` ends or has the smaller character. */
  predicate DiffersAt(a: string, b: string, k: nat) {
    k <= |a| && k < |b| && a[..k] == b[..k] && (k < |a| ==> a[k] < b[k])
  }

  /** Ids compare character by character. */
  lemma {:induction false} StringOrder(a: string, b: string)
    ensures StringBefore(a, b) <==> exists k: nat :: DiffersAt(a, b, k)
  {
    if b != "" && a != "" && a[0] == b[0] {
      StringOrder(a[1..], b[1..]);
      if StringBefore(a, b) {
        var k: nat :| DiffersAt(a[1..], b[1..], k);
        assert a[..k + 1] == [a[0]] + a[1..][..k] && b[..k + 1] == [b[0]] + b[1..][..k];
        assert DiffersAt(a, b, k + 1);
      }
      if exists k: nat :: DiffersAt(a, b, k) {
        var k: nat :| DiffersAt(a, b, k);
        assert a[1..][..k - 1] == a[..k][1..] && b[1..][..k - 1] == b[..k][1..];
        assert DiffersAt(a[1..], b[1..], k - 1);
      }
    } else if b != "" && a != "" && a[0] < b[0] {
      assert DiffersAt(a, b, 0);
    } else if b != "" && a != "" {
      forall k: nat ensures !DiffersAt(a, b, k) {
        assert k > 0 && k <= |a| && k < |b| ==> a[..k][0] != b[..k][0];
      }
    } else if b != "" {
      assert DiffersAt(a, b, 0);
    }
  }

  lemma {:induction false} StringsCompare(a: string, b: string)
    ensures a == b || StringBefore(a, b) || StringBefore(b, a)
  {
    if a != "" && b != "" && a[0] == b[0] {
      StringsCompare(a[1..], b[1..]);
      assert a == [a[0]] + a[1..] && b == [b[0]] + b[1..];
    }
  }

  /** Time decides, then the sequence number, then the id; of two different stamps one comes first. */
  lemma OrderMeans(a: Stamp, b: Stamp)
    ensures a.time < b.time ==> Before(a, b) && !Before(b, a)
    ensures a.time == b.time && a.seqNo < b.seqNo ==> Before(a, b) && !Before(b, a)
    ensures a.time == b.time && a.seqNo == b.seqNo ==> (Before(a, b) <==> StringBefore(a.id, b.id))
    ensures a != b ==> Before(a, b) || Before(b, a)
  {
    StringsCompare(a.id, b.id);
  }

  // ---- sorting by a stamp ----

  predicate InOrder<T>(s: seq<T>, stamp: T -> Stamp) {
    forall i, j :: 0 <= i < j < |s| ==> !Before(stamp(s[j]), stamp(s[i]))
  }

  function Inserted<T>(s: seq<T>, x: T, stamp: T -> Stamp): seq<T> {
    if s == [] then [x] else if Before(stamp(x), stamp(s[0])) then [x] + s else [s[0]] + Inserted(s[1..], x, stamp)
  }

  predicate DistinctBy<T, K(==)>(s: seq<T>, key: T -> K) {
    forall i, j :: 0 <= i < j < |s| ==> key(s[i]) != key(s[j])
  }

  lemma {:induction false} InsertedExact<T(!new), K>(s: seq<T>, x: T, stamp: T -> Stamp, key: T -> K)
    ensures |Inserted(s, x, stamp)| == |s| + 1
    ensures forall r :: r in Inserted(s, x, stamp) <==> r in s || r == x
    ensures DistinctBy(s, key) && (forall r :: r in s ==> key(r) != key(x)) ==> DistinctBy(Inserted(s, x, stamp), key)
  {
    if s != [] && !Before(stamp(x), stamp(s[0])) {
      InsertedExact(s[1..], x, stamp, key);
      var rest := Inserted(s[1..], x, stamp);
      assert s == [s[0]] + s[1..] && Inserted(s, x, stamp) == [s[0]] + rest;
      if DistinctBy(s, key) && forall r :: r in s ==> key(r) != key(x) {
        assert DistinctBy(s[1..], key) && forall r :: r in s[1..] ==> r in s;
        forall j | 0 <= j < |rest| ensures key(rest[j]) != key(s[0]) {
          assert rest[j] in rest && s[0] in s;
          if rest[j] in s[1..] {
            var k :| 0 <= k < |s[1..]| && s[1..][k] == rest[j];
            assert key(s[0]) != key(s[k + 1]);
          } else {
            assert rest[j] == x;
          }
        }
      }
    }
  }

  lemma {:induction false} InsertKeepsOrder<T(!new)>(s: seq<T>, x: T, stamp: T -> Stamp)
    requires InOrder(s, stamp)
    ensures InOrder(Inserted(s, x, stamp), stamp)
  {
    if s == [] {
    } else if Before(stamp(x), stamp(s[0])) {
      forall j | 0 <= j < |s| ensures !Before(stamp(s[j]), stamp(x)) {
        Irreflexive(stamp(s[0]));
        assert j == 0 || !Before(stamp(s[j]), stamp(s[0]));
        if Before(stamp(s[j]), stamp(x)) {
          Transitive(stamp(s[j]), stamp(x), stamp(s[0]));
        }
      }
    } else {
      InsertKeepsOrder(s[1..], x, stamp);
      InsertedExact(s[1..], x, stamp, stamp);
      var rest := Inserted(s[1..], x, stamp);
      forall j | 0 <= j < |rest| ensures !Before(stamp(rest[j]), stamp(s[0])) {
        assert rest[j] in rest;
        if rest[j] in s[1..] {
          var k :| 0 <= k < |s[1..]| && s[1..][k] == rest[j];
          assert s[k + 1] == rest[j];
        } else {
          assert rest[j] == x;
        }
      }
    }
  }

  /** The first of several in the order; of two with one stamp, the earlier in the list. */
  function Earliest<T(!new)>(s: seq<T>, stamp: T -> Stamp): (r: T)
    requires s != []
    ensures r in s
    ensures forall x :: x in s ==> !Before(stamp(x), stamp(r))
  {
    if |s| == 1 then
      Irreflexive(stamp(s[0]));
      s[0]
    else
      var front, last := s[..|s| - 1], s[|s| - 1];
      var rest := Earliest(front, stamp);
      if Before(stamp(last), stamp(rest)) then
        EarlierStill(front, stamp, rest, last);
        last
      else
        rest
  }

  lemma EarlierStill<T(!new)>(front: seq<T>, stamp: T -> Stamp, rest: T, last: T)
    requires Before(stamp(last), stamp(rest)) && forall x :: x in front ==> !Before(stamp(x), stamp(rest))
    ensures !Before(stamp(last), stamp(last)) && forall x :: x in front ==> !Before(stamp(x), stamp(last))
  {
    Irreflexive(stamp(last));
    forall x | x in front ensures !Before(stamp(x), stamp(last)) {
      if Before(stamp(x), stamp(last)) { Transitive(stamp(x), stamp(last), stamp(rest)); }
    }
  }
}
