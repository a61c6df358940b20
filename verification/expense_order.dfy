/** The expense record and the ordering the ledger table sorts by: the
    comparator handed to `Array.prototype.sort` and the stable sort that
    uses it. */
module ExpenseOrder {
  import opened Text
  import opened Seqs
  import opened Sorting

  /** One ledger row. `amount` is in cents and `date` is a timestamp in
      milliseconds since 1970-01-01 UTC (what a `Date` compares by), so
      both compare as integers. */
  datatype Expense = Expense(
    id: string,
    date: int,
    category: string,
    description: string,
    amount: int,
    paymentMethod: string)

  /** The field names of an expense (`keyof Expense`). */
  datatype SortKey = Id | Date | Category | Description | Amount | PaymentMethod

  datatype Direction = Ascending | Descending

  datatype SortConfig = SortConfig(key: SortKey, direction: Direction)

  /** The value of a field: text fields compare lexicographically,
      dates chronologically and amounts numerically. */
  datatype Field = Num(n: int) | Str(s: string)

  /** `expense[key]` */
  function FieldOf(e: Expense, k: SortKey): (f: Field)
    ensures f.Num? <==> k == Date || k == Amount
  {
    match k
    case Id => Str(e.id)
    case Date => Num(e.date)
    case Category => Str(e.category)
    case Description => Str(e.description)
    case Amount => Num(e.amount)
    case PaymentMethod => Str(e.paymentMethod)
  }

  /** JavaScript's `<` on two values of the same field. */
  predicate FieldLess(x: Field, y: Field)
  {
    match (x, y)
    case (Num(m), Num(n)) => m < n
    case (Str(s), Str(t)) => LexLess(s, t)
    case _ => false
  }

  /** On values of one kind, `FieldLess` is a strict total order. */
  lemma FieldOrder(x: Field, y: Field)
    requires x.Num? == y.Num?
    ensures x == y || FieldLess(x, y) || FieldLess(y, x)
    ensures !(FieldLess(x, y) && FieldLess(y, x))
    ensures !FieldLess(x, x)
  {
    if x.Str? {
      LexTotal(x.s, y.s);
      LexAsymmetric(x.s, y.s);
      LexIrreflexive(x.s);
    }
  }

  lemma FieldTransitive(x: Field, y: Field, z: Field)
    requires FieldLess(x, y) && FieldLess(y, z)
    ensures FieldLess(x, z)
  {
    if x.Str? {
      LexTransitive(x.s, y.s, z.s);
    }
  }

  /** Two expenses tie on a key when that field has the same value. */
  predicate SameKey(a: Expense, b: Expense, k: SortKey)
  {
    FieldOf(a, k) == FieldOf(b, k)
  }

  /** The comparator of the ledger's sort: -1 when the first row's key
      value is smaller, 1 when it is larger (swapped when descending),
      and 0 when neither is. */
  function Compare(a: Expense, b: Expense, c: SortConfig): int
  {
    if FieldLess(FieldOf(a, c.key), FieldOf(b, c.key)) then
      (if c.direction == Ascending then -1 else 1)
    else if FieldLess(FieldOf(b, c.key), FieldOf(a, c.key)) then
      (if c.direction == Ascending then 1 else -1)
    else 0
  }

  /** The comparator is consistent: it is antisymmetric, it returns 0
      exactly on ties, and ascending and descending are mirror images. */
  lemma CompareLaws(a: Expense, b: Expense, c: SortConfig)
    ensures Compare(a, b, c) == -Compare(b, a, c)
    ensures Compare(a, b, c) == 0 <==> SameKey(a, b, c.key)
    ensures Compare(a, b, SortConfig(c.key, Descending)) == Compare(b, a, SortConfig(c.key, Ascending))
  {
    FieldOrder(FieldOf(a, c.key), FieldOf(b, c.key));
  }

  lemma CompareTransitive(a: Expense, b: Expense, d: Expense, c: SortConfig)
    requires Compare(a, b, c) <= 0 && Compare(b, d, c) <= 0
    ensures Compare(a, d, c) <= 0
  {
    var x, y, z := FieldOf(a, c.key), FieldOf(b, c.key), FieldOf(d, c.key);
    FieldOrder(x, y);
    FieldOrder(y, z);
    FieldOrder(x, z);
    if FieldLess(x, y) && FieldLess(y, z) {
      FieldTransitive(x, y, z);
    }
    if FieldLess(z, y) && FieldLess(y, x) {
      FieldTransitive(z, y, x);
    }
  }

  /** The comparator as the function value handed to the sort. */
  function Comparator(c: SortConfig): (Expense, Expense) -> int
  {
    (a, b) => Compare(a, b, c)
  }

  lemma ComparatorConsistent(c: SortConfig)
    ensures IsConsistent(Comparator(c))
    ensures forall a, b :: Comparator(c)(a, b) == 0 <==> SameKey(a, b, c.key)
  {
    var cmp := Comparator(c);
    forall a, b
      ensures cmp(a, b) == -cmp(b, a)
      ensures cmp(a, b) == 0 <==> SameKey(a, b, c.key)
    {
      CompareLaws(a, b, c);
    }
    forall a, b, d
      ensures TransitiveAt(cmp, a, b, d)
    {
      if cmp(a, b) <= 0 && cmp(b, d) <= 0 {
        CompareTransitive(a, b, d, c);
      }
    }
  }

  /** The ledger's sorted view of `xs`: a permutation of `xs`, ordered by
      the comparator, in which rows that tie on the key (the comparator
      returns 0 exactly for those) keep the order they had in `xs`. */
  function SortRows(xs: seq<Expense>, c: SortConfig): (r: seq<Expense>)
    ensures multiset(r) == multiset(xs)
    ensures forall i, j :: 0 <= i < j < |r| ==> Compare(r[i], r[j], c) <= 0
    ensures StableWrt(r, xs, Comparator(c))
  {
    ComparatorConsistent(c);
    SortIsSorted(xs, Comparator(c));
    SortIsStable(xs, Comparator(c));
    StableSort(xs, Comparator(c))
  }

  /** No two different rows of `xs` tie on key `k`. */
  ghost predicate DistinctKeys(xs: seq<Expense>, k: SortKey)
  {
    forall i, j :: 0 <= i < |xs| && 0 <= j < |xs| && xs[i] != xs[j] ==> !SameKey(xs[i], xs[j], k)
  }

  /** When no two rows tie on the key, sorting descending gives exactly
      the reverse of sorting ascending. */
  lemma DescendingReversesAscending(xs: seq<Expense>, k: SortKey)
    requires DistinctKeys(xs, k)
    ensures SortRows(xs, SortConfig(k, Descending)) == Reverse(SortRows(xs, SortConfig(k, Ascending)))
  {
    var asc, desc := SortConfig(k, Ascending), SortConfig(k, Descending);
    var up := SortRows(xs, asc);
    var down := SortRows(xs, desc);
    var rev := Reverse(up);
    ComparatorConsistent(desc);
    ReverseMultiset(up);
    forall a, b
      ensures Comparator(desc)(a, b) == Comparator(asc)(b, a)
    {
      CompareLaws(a, b, asc);
    }
    ReverseSorted(up, Comparator(asc), Comparator(desc));
    forall i, j | 0 <= i < |down| && 0 <= j < |down| && down[i] != down[j]
      ensures Comparator(desc)(down[i], down[j]) != 0
    {
      assert down[i] in multiset(xs) && down[j] in multiset(xs);
      var p :| 0 <= p < |xs| && xs[p] == down[i];
      var q :| 0 <= q < |xs| && xs[q] == down[j];
    }
    SortedUnique(down, rev, Comparator(desc));
  }
}
