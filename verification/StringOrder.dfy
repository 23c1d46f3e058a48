/** The order in which Python sorts strings. */
module StringOrder {

  /** Strings compare by code points; a proper prefix comes first. */
  predicate Precedes(a: string, b: string) {
    if b == "" then false
    else if a == "" then true
    else if a[0] != b[0] then a[0] < b[0]
    else Precedes(a[1..], b[1..])
  }

  lemma {:induction false} PrecedesIsTotal(a: string, b: string)
    ensures a == b || Precedes(a, b) || Precedes(b, a)
    decreases |a|
  {
    if a != "" && b != "" && a[0] == b[0] {
      PrecedesIsTotal(a[1..], b[1..]);
      assert a == [a[0]] + a[1..] && b == [b[0]] + b[1..];
    }
  }

  lemma {:induction false} PrecedesIsStrict(a: string, b: string)
    ensures !(Precedes(a, b) && Precedes(b, a)) && !Precedes(a, a)
    decreases |a| + |b|
  {
    SelfNotPrecedes(a);
    if a != "" && b != "" { PrecedesIsStrict(a[1..], b[1..]); }
  }

  lemma {:induction false} SelfNotPrecedes(a: string)
    ensures !Precedes(a, a)
    decreases |a|
  {
    if a != "" { SelfNotPrecedes(a[1..]); }
  }

  lemma {:induction false} PrecedesIsTransitive(a: string, b: string, c: string)
    requires Precedes(a, b) && Precedes(b, c)
    ensures Precedes(a, c)
    decreases |a|
  {
    if a != "" && b[0] == a[0] && c[0] == b[0] { PrecedesIsTransitive(a[1..], b[1..], c[1..]); }
  }

  lemma {:induction false} PrefixPrecedes(a: string, tail: string)
    requires tail != ""
    ensures Precedes(a, a + tail)
  {
    if a == "" {
      assert a + tail == tail;
    } else {
      PrefixPrecedes(a[1..], tail);
      assert (a + tail)[1..] == a[1..] + tail;
    }
  }
}
