/** Tickets that are issued once, may wait under a key, and are closed once. */
module Ledger {

  /** `open`: waiting tickets by key; `closed`: closed tickets, counted. */
  datatype Book = Book(issued: nat, open: map<string, nat>, closed: multiset<nat>)

  /** Every issued ticket either waits under exactly one key or has been closed exactly once. */
  ghost predicate Balanced(b: Book) {
    && (forall k :: k in b.open ==> b.open[k] < b.issued)
    && (forall j, k :: j in b.open && k in b.open && b.open[j] == b.open[k] ==> j == k)
    && (forall t: nat :: t < b.issued ==> b.closed[t] == if t in b.open.Values then 0 else 1)
    && (forall t: nat :: t >= b.issued ==> b.closed[t] == 0)
  }

  function IssueClosed(b: Book): Book {
    b.(issued := b.issued + 1, closed := b.closed + multiset{b.issued})
  }

  function IssueOpen(b: Book, k: string): Book {
    b.(issued := b.issued + 1, open := b.open[k := b.issued])
  }

  function CloseKey(b: Book, k: string): Book
    requires k in b.open
  {
    b.(open := b.open - {k}, closed := b.closed + multiset{b.open[k]})
  }

  lemma IssueClosedBalances(b: Book)
    requires Balanced(b)
    ensures Balanced(IssueClosed(b))
  {
  }

  lemma IssueOpenBalances(b: Book, k: string)
    requires Balanced(b) && k !in b.open
    ensures Balanced(IssueOpen(b, k))
  {
    var b' := IssueOpen(b, k);
    assert b'.open[k] == b.issued;
    forall t: nat ensures t in b'.open.Values <==> t in b.open.Values || t == b.issued {
      if t in b.open.Values {
        var j :| j in b.open && b.open[j] == t;
        assert b'.open[j] == t;
      }
    }
  }

  lemma CloseKeyBalances(b: Book, k: string)
    requires Balanced(b) && k in b.open
    ensures Balanced(CloseKey(b, k))
  {
    var b' := CloseKey(b, k);
    forall t: nat ensures t in b'.open.Values <==> t in b.open.Values && t != b.open[k] {
      if t in b.open.Values && t != b.open[k] {
        var j :| j in b.open && b.open[j] == t;
        assert b'.open[j] == t;
      }
    }
  }
}
