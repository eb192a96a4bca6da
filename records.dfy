/** The transaction record shared by every part of the tracker, and the amount sums the
    dashboard takes over records. */
module Records {
  import opened Patterns

  /** A transaction as the tracker stores it. Every field is text; a field that is absent from the
      stored object is modelled as "", which is how every `field || ''` and `field || 0` in the
      tracker reads it. */
  datatype Record = Record(id: string, description: string, amount: string, category: string, date: string)

  /** `records.reduce((sum, r) => sum + parseFloat(r.amount || 0), 0)`, in cents. */
  function SumCents(rs: seq<Record>): nat {
    if rs == [] then 0 else Cents(rs[0].amount) + SumCents(rs[1..])
  }

  /** Sums add up over concatenation. */
  lemma {:induction false} SumCentsConcat(a: seq<Record>, b: seq<Record>)
    ensures SumCents(a + b) == SumCents(a) + SumCents(b)
  {
    if a == [] {
      assert a + b == b;
    } else {
      assert (a + b)[0] == a[0] && (a + b)[1..] == a[1..] + b;
      SumCentsConcat(a[1..], b);
    }
  }
}
