/**
 Identifiers of services, edges and endpoints, the byte-wise order the engine sorts them by, and the display
 names of paths: service IDs joined on "->".
 */
module Ids {
  type Id = string

  /** `strings.Compare(a, b) <= 0`. */
  predicate Leq(a: Id, b: Id) {
    a == "" || (b != "" && (a[0] < b[0] || (a[0] == b[0] && Leq(a[1..], b[1..]))))
  }

  predicate Less(a: Id, b: Id) {
    a != b && Leq(a, b)
  }

  lemma {:induction false} LeqTotal(a: Id, b: Id)
    ensures Leq(a, b) || Leq(b, a)
    ensures Leq(a, b) && Leq(b, a) ==> a == b
  {
    if a != "" && b != "" && a[0] == b[0] {
      LeqTotal(a[1..], b[1..]);
      assert a == [a[0]] + a[1..] && b == [b[0]] + b[1..];
    }
  }

  lemma {:induction false} LeqTransitive(a: Id, b: Id, c: Id)
    requires Leq(a, b) && Leq(b, c)
    ensures Leq(a, c)
  {
    if a != "" && b != "" && c != "" && a[0] == b[0] == c[0] {
      LeqTransitive(a[1..], b[1..], c[1..]);
    }
  }

  /** The first difference is at position k, and a is smaller there. */
  ghost predicate DiffersAt(a: Id, b: Id, k: nat) {
    k < |a| && k < |b| && a[..k] == b[..k] && a[k] < b[k]
  }

  /** The order of the dictionary: the first difference decides, and a prefix comes first. */
  ghost predicate ByFirstDifference(a: Id, b: Id) {
    a <= b || exists k: nat :: DiffersAt(a, b, k)
  }

  lemma {:induction false} LeqExactly(a: Id, b: Id)
    ensures Leq(a, b) <==> ByFirstDifference(a, b)
  {
    if a != "" && b != "" {
      LeqExactly(a[1..], b[1..]);
      if a[0] == b[0] {
        PrefixShifts(a, b);
        DifferenceShifts(a, b);
      } else {
        FirstDiffers(a, b);
      }
    }
  }

  lemma PrefixShifts(a: Id, b: Id)
    requires a != "" && b != "" && a[0] == b[0]
    ensures a <= b <==> a[1..] <= b[1..]
  {
    if a <= b {
      assert forall i | 0 <= i < |a| - 1 :: a[1..][i] == b[1..][i];
    }
    if a[1..] <= b[1..] {
      forall i | 0 <= i < |a|
        ensures a[i] == b[i]
      {
        if i > 0 {
          assert a[1..][i - 1] == b[1..][i - 1];
        }
      }
    }
  }

  lemma DifferenceShifts(a: Id, b: Id)
    requires a != "" && b != "" && a[0] == b[0]
    ensures (exists k: nat :: DiffersAt(a, b, k)) <==> exists k: nat :: DiffersAt(a[1..], b[1..], k)
  {
    if k: nat :| DiffersAt(a, b, k) {
      assert a[..k][1..] == b[..k][1..];
      assert a[1..][..k - 1] == a[..k][1..] && b[1..][..k - 1] == b[..k][1..];
      assert DiffersAt(a[1..], b[1..], k - 1);
    }
    if k: nat :| DiffersAt(a[1..], b[1..], k) {
      assert a[..k + 1] == [a[0]] + a[1..][..k] && b[..k + 1] == [b[0]] + b[1..][..k];
      assert DiffersAt(a, b, k + 1);
    }
  }

  lemma FirstDiffers(a: Id, b: Id)
    requires a != "" && b != "" && a[0] != b[0]
    ensures !(a <= b)
    ensures (exists k: nat :: DiffersAt(a, b, k)) <==> a[0] < b[0]
  {
    if a[0] < b[0] {
      assert a[..0] == b[..0];
      assert DiffersAt(a, b, 0);
    }
    if k: nat :| DiffersAt(a, b, k) {
      if k > 0 {
        assert a[..k][0] == b[..k][0];
      }
    }
  }

  /** `strings.Join(parts, "->")`. */
  function Join(parts: seq<Id>): string {
    if |parts| == 0 then "" else if |parts| == 1 then parts[0] else parts[0] + "->" + Join(parts[1..])
  }

  predicate ArrowAt(s: string, i: int) {
    0 <= i < |s| - 1 && s[i] == '-' && s[i + 1] == '>'
  }

  /** The ID holds no "->" of its own, so it cannot be mistaken for two joined IDs. */
  ghost predicate Plain(id: Id) {
    forall i :: !ArrowAt(id, i)
  }

  ghost predicate AllPlain(parts: seq<Id>) {
    forall i | 0 <= i < |parts| :: Plain(parts[i])
  }

  lemma FirstArrow(head: Id, rest: string)
    requires Plain(head)
    ensures ArrowAt(head + "->" + rest, |head|)
    ensures forall i | i < |head| :: !ArrowAt(head + "->" + rest, i)
  {
    var s := head + "->" + rest;
    forall i | 0 <= i < |head|
      ensures !ArrowAt(s, i)
    {
      if i < |head| - 1 {
        assert !ArrowAt(head, i);
      }
    }
  }

  /** Path IDs name service sequences uniquely as long as no service ID contains "->". */
  lemma {:induction false} JoinInjective(a: seq<Id>, b: seq<Id>)
    requires a != [] && b != [] && AllPlain(a) && AllPlain(b)
    requires Join(a) == Join(b)
    ensures a == b
  {
    if |a| == 1 && |b| == 1 {
    } else if |a| == 1 {
      FirstArrow(b[0], Join(b[1..]));
      assert false;
    } else if |b| == 1 {
      FirstArrow(a[0], Join(a[1..]));
      assert false;
    } else {
      FirstArrow(a[0], Join(a[1..]));
      FirstArrow(b[0], Join(b[1..]));
      assert |a[0]| == |b[0]|;
      assert a[0] == Join(a)[..|a[0]|] == b[0];
      assert Join(a[1..]) == Join(a)[|a[0]| + 2..] == Join(b[1..]);
      JoinInjective(a[1..], b[1..]);
    }
  }
}
