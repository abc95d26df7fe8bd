/** The list filter of `clientListSection` in `Main.kt`: the customers whose
    name or id contains the query, ignoring case; the whole list when the
    query is empty or nothing matches. */
module ClientSearch {
  import opened Text
  import opened ClienteRecords

  /** `nome.contains(query, ignoreCase = true) || idCliente.contains(query, ignoreCase = true)`. */
  predicate MatchesQuery(query: string, c: Cliente)
  {
    ContainsIgnoringCase(c.nome, query) || ContainsIgnoringCase(c.idCliente, query)
  }

  /** `clientList.filter { … }`: the matching customers, in list order. */
  function MatchingClients(query: string, clients: seq<Cliente>): (matched: seq<Cliente>)
    ensures forall c :: c in matched <==> c in clients && MatchesQuery(query, c)
    ensures IsSubsequence(matched, clients)
    ensures forall c :: multiset(matched)[c] == if MatchesQuery(query, c) then multiset(clients)[c] else 0
    decreases |clients|
  {
    if |clients| == 0 then []
    else
      var rest := MatchingClients(query, clients[1..]);
      assert clients == [clients[0]] + clients[1..];
      assert forall c :: c in clients <==> c == clients[0] || c in clients[1..];
      if MatchesQuery(query, clients[0]) then [clients[0]] + rest else rest
  }

  /** The derived `filteredClients` list. */
  function FilteredClients(query: string, clients: seq<Cliente>): (shown: seq<Cliente>)
    ensures IsSubsequence(shown, clients)
    ensures |clients| > 0 ==> |shown| > 0
  {
    SubsequenceReflexive(clients);
    if |query| == 0 then clients
    else
      var matched := MatchingClients(query, clients);
      if |matched| > 0 then matched else clients
  }

  /** An empty query shows the whole list. */
  lemma EmptyQueryShowsAll(clients: seq<Cliente>)
    ensures FilteredClients("", clients) == clients
  {
  }

  /** A query that something matches shows exactly the matching customers,
      in list order. */
  lemma MatchedQueryShowsMatches(query: string, clients: seq<Cliente>, c: Cliente)
    requires |query| > 0
    requires c in clients && MatchesQuery(query, c)
    ensures FilteredClients(query, clients) == MatchingClients(query, clients)
    ensures forall d :: d in FilteredClients(query, clients) <==> d in clients && MatchesQuery(query, d)
    ensures forall d :: multiset(FilteredClients(query, clients))[d] ==
                        if MatchesQuery(query, d) then multiset(clients)[d] else 0
  {
  }

  /** A query that nothing matches falls back to the whole list. */
  lemma UnmatchedQueryShowsAll(query: string, clients: seq<Cliente>)
    requires forall c :: c in clients ==> !MatchesQuery(query, c)
    ensures FilteredClients(query, clients) == clients
  {
    if |query| > 0 && |MatchingClients(query, clients)| > 0 {
      assert MatchingClients(query, clients)[0] in MatchingClients(query, clients);
    }
  }

  /** The query matches a customer whose name holds it in another case. */
  lemma CaseIsIgnored(c: Cliente)
    requires c.nome == "Maria Silva"
    ensures MatchesQuery("mARIA", c)
  {
    assert MatchesAt(c.nome, "mARIA", 0);
  }
}
