/** The help page's FAQ search: the list of questions narrowed, in
    order, to those whose question or answer contains the query,
    ignoring (ASCII) case. */
module Help {
  import opened Text
  import opened Seqs

  datatype Faq = Faq(question: string, answer: string, category: string)

  const Faqs: seq<Faq> := [
    Faq("How do I create a budget in FemFinHub?",
        "Navigate to the Dashboard and click on 'Create Budget'. Follow the guided steps to set up income sources, expense categories, and savings goals. You can also use our templates for common budget scenarios.",
        "Getting Started"),
    Faq("Can I link my bank accounts to track expenses automatically?",
        "Yes! Go to Settings > Linked Accounts and follow the secure connection process. We use bank-level encryption to ensure your data remains safe and private.",
        "Account Management"),
    Faq("How do I set up automatic savings?",
        "In the Expenses section, click on 'Savings Rules'. You can create rules like saving a percentage of income or rounding up transactions to the nearest dollar.",
        "Savings"),
    Faq("Is my financial data secure?",
        "Absolutely. We use 256-bit encryption, multi-factor authentication, and never sell your data to third parties. Read our Privacy Policy for more details.",
        "Security"),
    Faq("How do I connect with a financial advisor?",
        "Visit the Community section and navigate to the Mentors tab. You can browse profiles of certified advisors and book a session directly through the platform.",
        "Support")]

  /** The lower-cased question or answer contains the lower-cased query;
      the category is not searched. */
  predicate Matches(f: Faq, query: string)
  {
    Contains(Lower(f.question), Lower(query)) || Contains(Lower(f.answer), Lower(query))
  }

  function Keep(query: string): Faq -> bool
  {
    f => Matches(f, query)
  }

  /** The FAQs shown for `query`: an order-preserving selection of
      `faqs` holding exactly the matching ones. */
  function FilteredFaqs(faqs: seq<Faq>, query: string): (r: seq<Faq>)
    ensures IsSubsequence(r, faqs)
    ensures forall i :: 0 <= i < |r| ==> Matches(r[i], query)
    ensures forall i :: 0 <= i < |faqs| ==> (faqs[i] in r <==> Matches(faqs[i], query))
    ensures forall f :: multiset(r)[f] == if Matches(f, query) then multiset(faqs)[f] else 0
  {
    FilterIsSubsequence(faqs, Keep(query));
    KeepCounts(faqs, query);
    Filter(faqs, Keep(query))
  }

  /** A matching FAQ is shown as often as it is listed, another one never. */
  lemma KeepCounts(faqs: seq<Faq>, query: string)
    ensures forall f :: multiset(Filter(faqs, Keep(query)))[f] ==
              (if Matches(f, query) then multiset(faqs)[f] else 0)
  {
    forall f
      ensures multiset(Filter(faqs, Keep(query)))[f] == if Matches(f, query) then multiset(faqs)[f] else 0
    {
      FilterCount(faqs, Keep(query), f);
    }
  }

  /** An empty query shows every FAQ. */
  lemma EmptyQueryKeepsAll(faqs: seq<Faq>)
    ensures FilteredFaqs(faqs, "") == faqs
  {
    forall i | 0 <= i < |faqs|
      ensures Keep("")(faqs[i])
    {
      ContainsEmpty(Lower(faqs[i].question));
    }
    FilterAllPass(faqs, Keep(""));
  }

  /** Queries that differ only in ASCII case give the same result; in
      particular a query and its upper-cased form do. */
  lemma CaseVariantsAgree(faqs: seq<Faq>, q1: string, q2: string)
    requires Lower(q1) == Lower(q2)
    ensures FilteredFaqs(faqs, q1) == FilteredFaqs(faqs, q2)
  {
    FilterCongruent(faqs, Keep(q1), Keep(q2));
  }

  lemma UpperCaseQueryAgrees(faqs: seq<Faq>, q: string)
    ensures FilteredFaqs(faqs, Upper(q)) == FilteredFaqs(faqs, q)
  {
    LowerOfUpper(q);
    CaseVariantsAgree(faqs, Upper(q), q);
  }

  /** Searching for "BUDGET" keeps the question about creating a budget. */
  lemma BudgetQueryFindsFirst()
    ensures Faqs[0] in FilteredFaqs(Faqs, "BUDGET")
  {
    var q := Faqs[0].question;
    assert Lower("BUDGET") == "budget";
    assert q == "How do I create a budget in FemFinHub?";
    var w := "budget";
    forall i | 0 <= i < 6
      ensures Lower(q)[18 + i] == w[i]
    {
      assert q[18 + i] == w[i];
    }
    assert Lower(q)[18..24] == w;
    assert OccursAt(Lower(q), w, 18);
  }

  /** The page's search state: "Clear search" empties the query, after
      which every FAQ is shown. */
  function ClearSearch(query: string): (r: string)
    ensures FilteredFaqs(Faqs, r) == Faqs
  {
    EmptyQueryKeepsAll(Faqs);
    ""
  }
}
