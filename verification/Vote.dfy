/**
 The weighted vote over IP databases: the `vote` closure of `lookupLocal` in
 core/internal/server/ip_geo_database.go. Go iterates over maps in any order; the loops below choose
 the next key arbitrarily. `lower` stands for `strings.ToLower`.
 */
module Vote {
  import opened Strings

  /** One resolved candidate: the value it votes for, its source's family and weight. Its order is its position. */
  datatype Ballot = Ballot(value: string, dataFamily: string, sourceID: string, weight: int)

  function Family(b: Ballot, lower: string -> string): string {
    var family := TrimSpace(b.dataFamily);
    if family != "" then lower(family) else "source:" + lower(TrimSpace(b.sourceID))
  }

  function Weight(b: Ballot): int {
    if b.weight <= 0 then 1 else b.weight
  }

  predicate Votes(b: Ballot) {
    TrimSpace(b.value) != ""
  }

  function Key(b: Ballot, lower: string -> string): string {
    lower(TrimSpace(TrimSpace(b.value)))
  }

  /** Ballot `i` beats ballot `j`: heavier, or as heavy and earlier. */
  predicate Beats(bs: seq<Ballot>, i: nat, j: nat)
    requires i < |bs| && j < |bs|
  {
    Weight(bs[i]) > Weight(bs[j]) || (Weight(bs[i]) == Weight(bs[j]) && i < j)
  }

  /** Ballot `i` speaks for its family: it votes, and no other voting ballot of the family beats it. */
  predicate Speaks(bs: seq<Ballot>, lower: string -> string, i: nat)
    requires i < |bs|
  {
    && Votes(bs[i])
    && forall j :: 0 <= j < |bs| && Votes(bs[j]) && Family(bs[j], lower) == Family(bs[i], lower) ==> j == i || Beats(bs, i, j)
  }

  /** The summed weight of the speakers for `key` among the first `n` ballots. */
  function Total(bs: seq<Ballot>, lower: string -> string, key: string, n: nat): int
    requires n <= |bs|
  {
    if n == 0 then 0
    else
      Total(bs, lower, key, n - 1)
      + (if Speaks(bs, lower, n - 1) && Key(bs[n - 1], lower) == key then Weight(bs[n - 1]) else 0)
  }

  /** Speaker `i` stands above speaker `j`: by the total of its value, then its own weight, then its position. */
  predicate Above(bs: seq<Ballot>, lower: string -> string, i: nat, j: nat)
    requires i < |bs| && j < |bs|
  {
    var a, b := Total(bs, lower, Key(bs[i], lower), |bs|), Total(bs, lower, Key(bs[j], lower), |bs|);
    a > b || (a == b && Beats(bs, i, j))
  }

  /** The speaker that stands above all others. */
  predicate Elected(bs: seq<Ballot>, lower: string -> string, i: nat) {
    && i < |bs| && Speaks(bs, lower, i)
    && forall j :: 0 <= j < |bs| && Speaks(bs, lower, j) ==> j == i || Above(bs, lower, i, j)
  }

  /** The result of a vote: the text of the elected ballot, or the empty string when nobody votes. */
  ghost predicate IsWinner(bs: seq<Ballot>, lower: string -> string, winner: string) {
    if exists i :: 0 <= i < |bs| && Votes(bs[i]) then
      exists i: nat :: Elected(bs, lower, i) && winner == TrimSpace(bs[i].value)
    else winner == ""
  }

  // ------------------------------------------------------------------ the loops

  datatype FamilyValue = FamilyValue(value: string, weight: int, order: nat)

  datatype TotalValue = TotalValue(value: string, total: int, maxWeight: int, order: nat)

  /** `v` comes from the best voting ballot of the family among the first `n`. */
  ghost predicate BestOfFamily(bs: seq<Ballot>, lower: string -> string, n: nat, f: string, v: FamilyValue)
    requires n <= |bs|
  {
    && v.order < n && Votes(bs[v.order]) && Family(bs[v.order], lower) == f
    && v.value == TrimSpace(bs[v.order].value) && v.weight == Weight(bs[v.order])
    && forall j :: 0 <= j < n && Votes(bs[j]) && Family(bs[j], lower) == f ==> j == v.order || Beats(bs, v.order, j)
  }

  /** The families map after the first `n` ballots: each family has the best of its voting ballots so far. */
  ghost predicate FamiliesUpTo(bs: seq<Ballot>, lower: string -> string, n: nat, families: map<string, FamilyValue>)
    requires n <= |bs|
  {
    && (forall i :: 0 <= i < n && Votes(bs[i]) ==> Family(bs[i], lower) in families)
    && (forall f :: f in families ==> BestOfFamily(bs, lower, n, f, families[f]))
  }

  /** The source's test for replacing a family's value. */
  predicate Takes(families: map<string, FamilyValue>, family: string, weight: int, order: nat) {
    || family !in families || weight > families[family].weight
    || (weight == families[family].weight && order < families[family].order)
  }

  lemma FamilyTaken(bs: seq<Ballot>, lower: string -> string, n: nat, families: map<string, FamilyValue>)
    requires n < |bs| && FamiliesUpTo(bs, lower, n, families) && Votes(bs[n])
    requires Takes(families, Family(bs[n], lower), Weight(bs[n]), n)
    ensures FamiliesUpTo(bs, lower, n + 1,
                         families[Family(bs[n], lower) := FamilyValue(TrimSpace(bs[n].value), Weight(bs[n]), n)])
  {
    var f := Family(bs[n], lower);
    var v := FamilyValue(TrimSpace(bs[n].value), Weight(bs[n]), n);
    assert BestOfFamily(bs, lower, n + 1, f, v) by {
      if f in families {
        assert BestOfFamily(bs, lower, n, f, families[f]);
      }
    }
    forall g | g in families && g != f
      ensures BestOfFamily(bs, lower, n + 1, g, families[g])
    {
      assert BestOfFamily(bs, lower, n, g, families[g]);
    }
  }

  lemma FamilyKept(bs: seq<Ballot>, lower: string -> string, n: nat, families: map<string, FamilyValue>)
    requires n < |bs| && FamiliesUpTo(bs, lower, n, families)
    requires Votes(bs[n]) ==> !Takes(families, Family(bs[n], lower), Weight(bs[n]), n)
    ensures FamiliesUpTo(bs, lower, n + 1, families)
  {
    forall f | f in families
      ensures BestOfFamily(bs, lower, n + 1, f, families[f])
    {
      assert BestOfFamily(bs, lower, n, f, families[f]);
    }
  }

  method CollectFamilies(bs: seq<Ballot>, lower: string -> string) returns (families: map<string, FamilyValue>)
    ensures FamiliesUpTo(bs, lower, |bs|, families)
  {
    families := map[];
    for i := 0 to |bs|
      invariant FamiliesUpTo(bs, lower, i, families)
    {
      var text := TrimSpace(bs[i].value);
      if text == "" {
        FamilyKept(bs, lower, i, families);
        continue;
      }
      var family := Family(bs[i], lower);
      var weight := Weight(bs[i]);
      if Takes(families, family, weight, i) {
        FamilyTaken(bs, lower, i, families);
        families := families[family := FamilyValue(text, weight, i)];
      } else {
        FamilyKept(bs, lower, i, families);
      }
    }
  }

  /** The positions of the ballots that the families in `done` sent. */
  ghost function Senders(families: map<string, FamilyValue>, done: set<string>): set<nat>
    requires done <= families.Keys
  {
    set f | f in done :: families[f].order
  }

  /** The summed weight of the positions of `s` below `n` that vote for `key`. */
  ghost function Sum(bs: seq<Ballot>, lower: string -> string, s: set<nat>, key: string, n: nat): int
    requires n <= |bs|
  {
    if n == 0 then 0
    else Sum(bs, lower, s, key, n - 1) + (if n - 1 in s && Key(bs[n - 1], lower) == key then Weight(bs[n - 1]) else 0)
  }

  /** The totals map for the ballots at the positions `s`. */
  ghost predicate TotalsOf(bs: seq<Ballot>, lower: string -> string, s: set<nat>, totals: map<string, TotalValue>) {
    && (forall i :: i in s ==> i < |bs| && Key(bs[i], lower) in totals)
    && (forall k :: k in totals ==>
          var t := totals[k];
          && t.order in s && t.order < |bs| && Key(bs[t.order], lower) == k
          && t == TotalValue(TrimSpace(bs[t.order].value), Sum(bs, lower, s, k, |bs|), Weight(bs[t.order]), t.order)
          && forall i :: i in s && i < |bs| && Key(bs[i], lower) == k ==> i == t.order || Beats(bs, t.order, i))
  }

  lemma {:induction false} SumInsert(bs: seq<Ballot>, lower: string -> string, s: set<nat>, i: nat, key: string, n: nat)
    requires n <= |bs| && i < |bs| && i !in s
    ensures Sum(bs, lower, s + {i}, key, n)
         == Sum(bs, lower, s, key, n) + (if i < n && Key(bs[i], lower) == key then Weight(bs[i]) else 0)
  {
    if n > 0 {
      SumInsert(bs, lower, s, i, key, n - 1);
    }
  }

  lemma {:induction false} SumOfStrangers(bs: seq<Ballot>, lower: string -> string, s: set<nat>, key: string, n: nat)
    requires n <= |bs| && forall i :: i in s && i < |bs| ==> Key(bs[i], lower) != key
    ensures Sum(bs, lower, s, key, n) == 0
  {
    if n > 0 {
      SumOfStrangers(bs, lower, s, key, n - 1);
    }
  }

  /** The new entry for a key when one more ballot with that key is added. */
  function AddVote(totals: map<string, TotalValue>, key: string, item: FamilyValue): TotalValue {
    var current := if key in totals then totals[key] else TotalValue(item.value, 0, 0, item.order);
    var summed := current.(total := current.total + item.weight);
    if item.weight > summed.maxWeight || (item.weight == summed.maxWeight && item.order < summed.order) then
      summed.(value := item.value, maxWeight := item.weight, order := item.order)
    else summed
  }

  lemma AddVoteKeepsTotals(bs: seq<Ballot>, lower: string -> string, s: set<nat>, totals: map<string, TotalValue>, i: nat)
    requires TotalsOf(bs, lower, s, totals) && i < |bs| && i !in s
    ensures var key := Key(bs[i], lower);
            var item := FamilyValue(TrimSpace(bs[i].value), Weight(bs[i]), i);
            TotalsOf(bs, lower, s + {i}, totals[key := AddVote(totals, key, item)])
  {
    var key := Key(bs[i], lower);
    var item := FamilyValue(TrimSpace(bs[i].value), Weight(bs[i]), i);
    var after := totals[key := AddVote(totals, key, item)];
    forall k | k in after
      ensures Sum(bs, lower, s + {i}, k, |bs|) == after[k].total
    {
      SumInsert(bs, lower, s, i, k, |bs|);
      if k == key && key !in totals {
        SumOfStrangers(bs, lower, s, k, |bs|);
      }
    }
  }

  /** The totals map after the families in `done` were counted. */
  ghost predicate CountedSoFar(bs: seq<Ballot>, lower: string -> string, families: map<string, FamilyValue>,
                               done: set<string>, totals: map<string, TotalValue>) {
    done <= families.Keys && TotalsOf(bs, lower, Senders(families, done), totals)
  }

  lemma NothingCounted(bs: seq<Ballot>, lower: string -> string, families: map<string, FamilyValue>)
    ensures CountedSoFar(bs, lower, families, {}, map[])
  {
  }

  lemma FamilyCounted(bs: seq<Ballot>, lower: string -> string, families: map<string, FamilyValue>, f: string,
                      totals: map<string, TotalValue>, done: set<string>)
    requires FamiliesUpTo(bs, lower, |bs|, families) && f in families && f !in done
    requires CountedSoFar(bs, lower, families, done, totals)
    ensures var key := lower(TrimSpace(families[f].value));
            CountedSoFar(bs, lower, families, done + {f}, totals[key := AddVote(totals, key, families[f])])
  {
    SendersGrow(bs, lower, families, done, f);
    assert BestOfFamily(bs, lower, |bs|, f, families[f]);
    AddVoteKeepsTotals(bs, lower, Senders(families, done), totals, families[f].order);
  }

  /** One turn of the loop over the families map: an arbitrary family that is left. */
  method CountNext(bs: seq<Ballot>, lower: string -> string, families: map<string, FamilyValue>,
                   left: set<string>, totals: map<string, TotalValue>)
    returns (rest: set<string>, after: map<string, TotalValue>)
    requires FamiliesUpTo(bs, lower, |bs|, families) && {} < left <= families.Keys
    requires CountedSoFar(bs, lower, families, families.Keys - left, totals)
    ensures rest < left
    ensures CountedSoFar(bs, lower, families, families.Keys - rest, after)
  {
    var f :| f in left;
    FamilyCounted(bs, lower, families, f, totals, families.Keys - left);
    var key := lower(TrimSpace(families[f].value));
    after := totals[key := AddVote(totals, key, families[f])];
    rest := left - {f};
    assert families.Keys - rest == (families.Keys - left) + {f};
  }

  method CollectTotals(bs: seq<Ballot>, lower: string -> string, families: map<string, FamilyValue>)
    returns (totals: map<string, TotalValue>)
    requires FamiliesUpTo(bs, lower, |bs|, families)
    ensures TotalsOf(bs, lower, Senders(families, families.Keys), totals)
  {
    totals := map[];
    var left := families.Keys;
    NothingCounted(bs, lower, families);
    assert families.Keys - left == {};
    while left != {}
      invariant left <= families.Keys
      invariant CountedSoFar(bs, lower, families, families.Keys - left, totals)
      decreases left
    {
      left, totals := CountNext(bs, lower, families, left, totals);
    }
    assert families.Keys - left == families.Keys;
  }

  lemma SendersGrow(bs: seq<Ballot>, lower: string -> string, families: map<string, FamilyValue>, done: set<string>, f: string)
    requires FamiliesUpTo(bs, lower, |bs|, families) && done <= families.Keys && f in families && f !in done
    ensures Senders(families, done + {f}) == Senders(families, done) + {families[f].order}
    ensures families[f].order !in Senders(families, done)
  {
    forall g | g in done
      ensures families[g].order != families[f].order
    {
      assert BestOfFamily(bs, lower, |bs|, g, families[g]) && BestOfFamily(bs, lower, |bs|, f, families[f]);
    }
  }

  /** The families' senders are exactly the speakers. */
  lemma SendersAreSpeakers(bs: seq<Ballot>, lower: string -> string, families: map<string, FamilyValue>, i: nat)
    requires FamiliesUpTo(bs, lower, |bs|, families) && i < |bs|
    ensures i in Senders(families, families.Keys) <==> Speaks(bs, lower, i)
  {
    if Speaks(bs, lower, i) {
      var f := Family(bs[i], lower);
      assert BestOfFamily(bs, lower, |bs|, f, families[f]);
      assert families[f].order == i;
    }
  }

  lemma {:induction false} SumIsTotal(bs: seq<Ballot>, lower: string -> string, families: map<string, FamilyValue>,
                                      key: string, n: nat)
    requires FamiliesUpTo(bs, lower, |bs|, families) && n <= |bs|
    ensures Sum(bs, lower, Senders(families, families.Keys), key, n) == Total(bs, lower, key, n)
  {
    if n > 0 {
      SumIsTotal(bs, lower, families, key, n - 1);
      SendersAreSpeakers(bs, lower, families, n - 1);
      SumAndTotalStep(bs, lower, Senders(families, families.Keys), key, n - 1);
    }
  }

  lemma SumAndTotalStep(bs: seq<Ballot>, lower: string -> string, s: set<nat>, key: string, n: nat)
    requires n < |bs| && Sum(bs, lower, s, key, n) == Total(bs, lower, key, n)
    requires n in s <==> Speaks(bs, lower, n)
    ensures Sum(bs, lower, s, key, n + 1) == Total(bs, lower, key, n + 1)
  {
  }

  /** `a` replaces `b` as the winner so far. */
  predicate Outranks(a: TotalValue, b: TotalValue) {
    || a.total > b.total
    || (a.total == b.total && a.maxWeight > b.maxWeight)
    || (a.total == b.total && a.maxWeight == b.maxWeight && a.order < b.order)
  }

  method PickWinner(totals: map<string, TotalValue>) returns (winner: string, ghost best: string)
    requires forall a, b :: a in totals && b in totals && a != b ==> totals[a].order != totals[b].order
    ensures totals == map[] ==> winner == ""
    ensures totals != map[] ==> best in totals && winner == totals[best].value
    ensures totals != map[] ==> forall k :: k in totals ==> k == best || Outranks(totals[best], totals[k])
  {
    var current := TotalValue("", 0, 0, 0);
    var found := false;
    best := "";
    var left := totals.Keys;
    while left != {}
      invariant left <= totals.Keys
      invariant found <==> left != totals.Keys
      invariant found ==> best in totals && best !in left && current == totals[best]
      invariant found ==> forall k :: k in totals && k !in left ==> k == best || Outranks(current, totals[k])
      invariant !found ==> current.value == ""
      decreases |left|
    {
      var k :| k in left;
      if !found || Outranks(totals[k], current) {
        current, best, found := totals[k], k, true;
      }
      left := left - {k};
    }
    winner := current.value;
  }

  /** The whole vote. */
  method Tally(bs: seq<Ballot>, lower: string -> string) returns (winner: string)
    ensures IsWinner(bs, lower, winner)
  {
    var families := CollectFamilies(bs, lower);
    var totals := CollectTotals(bs, lower, families);
    ghost var best;
    winner, best := PickWinner(totals);
    WinnerIsElected(bs, lower, families, totals, best, winner);
  }

  lemma BestIsAbove(bs: seq<Ballot>, lower: string -> string, s: set<nat>, totals: map<string, TotalValue>, best: string, j: nat)
    requires TotalsOf(bs, lower, s, totals) && j in s && j < |bs|
    requires forall k :: k in totals ==> totals[k].total == Total(bs, lower, k, |bs|)
    requires best in totals && forall k :: k in totals ==> k == best || Outranks(totals[best], totals[k])
    ensures totals[best].order < |bs| && (j == totals[best].order || Above(bs, lower, totals[best].order, j))
  {
    var k := Key(bs[j], lower);
    assert k in totals;
    assert j == totals[k].order || Beats(bs, totals[k].order, j);
    assert k == best || Outranks(totals[best], totals[k]);
  }

  lemma TotalsAreTotals(bs: seq<Ballot>, lower: string -> string, families: map<string, FamilyValue>,
                        totals: map<string, TotalValue>)
    requires FamiliesUpTo(bs, lower, |bs|, families)
    requires TotalsOf(bs, lower, Senders(families, families.Keys), totals)
    ensures forall k :: k in totals ==> totals[k].total == Total(bs, lower, k, |bs|)
  {
    forall k | k in totals
      ensures totals[k].total == Total(bs, lower, k, |bs|)
    {
      SumIsTotal(bs, lower, families, k, |bs|);
    }
  }

  lemma WinnerIsElected(bs: seq<Ballot>, lower: string -> string, families: map<string, FamilyValue>,
                        totals: map<string, TotalValue>, best: string, winner: string)
    requires FamiliesUpTo(bs, lower, |bs|, families)
    requires TotalsOf(bs, lower, Senders(families, families.Keys), totals)
    requires totals == map[] ==> winner == ""
    requires totals != map[] ==> best in totals && winner == totals[best].value
    requires totals != map[] ==> forall k :: k in totals ==> k == best || Outranks(totals[best], totals[k])
    ensures IsWinner(bs, lower, winner)
  {
    if i :| 0 <= i < |bs| && Votes(bs[i]) {
      var f := Family(bs[i], lower);
      assert families[f].order in Senders(families, families.Keys);
      assert totals != map[];
      var w := totals[best].order;
      TotalsAreTotals(bs, lower, families, totals);
      SendersAreSpeakers(bs, lower, families, w);
      forall j | 0 <= j < |bs| && Speaks(bs, lower, j)
        ensures j == w || Above(bs, lower, w, j)
      {
        SendersAreSpeakers(bs, lower, families, j);
        BestIsAbove(bs, lower, Senders(families, families.Keys), totals, best, j);
      }
      assert Elected(bs, lower, w);
    }
  }

  // ------------------------------------------------------------------ determinism

  lemma AboveIsAsymmetric(bs: seq<Ballot>, lower: string -> string, i: nat, j: nat)
    requires i < |bs| && j < |bs| && Above(bs, lower, i, j)
    ensures !Above(bs, lower, j, i)
  {
  }

  /** At most one ballot is elected, so the vote has one answer whatever order the maps were walked in. */
  lemma OneWinner(bs: seq<Ballot>, lower: string -> string, a: string, b: string)
    requires IsWinner(bs, lower, a) && IsWinner(bs, lower, b)
    ensures a == b
  {
    if exists i :: 0 <= i < |bs| && Votes(bs[i]) {
      var i: nat :| Elected(bs, lower, i) && a == TrimSpace(bs[i].value);
      var j: nat :| Elected(bs, lower, j) && b == TrimSpace(bs[j].value);
      if i != j {
        AboveIsAsymmetric(bs, lower, i, j);
        assert false;
      }
    }
  }

  // ------------------------------------------------------------------ mirrors

  /** Some ballot of the same family already votes at least as heavily. */
  predicate IsMirror(bs: seq<Ballot>, lower: string -> string, b: Ballot) {
    exists j :: 0 <= j < |bs| && Votes(bs[j]) && Family(bs[j], lower) == Family(b, lower) && Weight(bs[j]) >= Weight(b)
  }

  lemma MirrorKeepsSpeakers(bs: seq<Ballot>, lower: string -> string, b: Ballot, i: nat)
    requires i <= |bs| && (Votes(b) ==> IsMirror(bs, lower, b))
    ensures Speaks(bs + [b], lower, i) <==> i < |bs| && Speaks(bs, lower, i)
  {
    var all := bs + [b];
    assert forall j :: 0 <= j < |bs| ==> all[j] == bs[j];
    if i == |bs| && Votes(b) {
      var j :| 0 <= j < |bs| && Votes(bs[j]) && Family(bs[j], lower) == Family(b, lower) && Weight(bs[j]) >= Weight(b);
      assert !Beats(all, i, j);
    } else if i < |bs| && Speaks(bs, lower, i) && Votes(b) && Family(b, lower) == Family(bs[i], lower) {
      var j :| 0 <= j < |bs| && Votes(bs[j]) && Family(bs[j], lower) == Family(b, lower) && Weight(bs[j]) >= Weight(b);
      assert Weight(bs[i]) >= Weight(bs[j]);
    } else if i < |bs| && Speaks(all, lower, i) {
      forall j | 0 <= j < |bs| && Votes(bs[j]) && Family(bs[j], lower) == Family(bs[i], lower)
        ensures j == i || Beats(bs, i, j)
      {
        assert all[j] == bs[j] && (j == i || Beats(all, i, j));
      }
    }
  }

  lemma {:induction false} MirrorKeepsTotals(bs: seq<Ballot>, lower: string -> string, b: Ballot, key: string, n: nat)
    requires n <= |bs| && (Votes(b) ==> IsMirror(bs, lower, b))
    ensures Total(bs + [b], lower, key, n) == Total(bs, lower, key, n)
  {
    if n > 0 {
      MirrorKeepsTotals(bs, lower, b, key, n - 1);
      MirrorKeepsSpeakers(bs, lower, b, n - 1);
      assert (bs + [b])[n - 1] == bs[n - 1];
    }
  }

  /** Adding a mirror of no greater weight, or a source without an answer, never changes the winner. */
  lemma MirrorNeverChangesTheWinner(bs: seq<Ballot>, lower: string -> string, b: Ballot, winner: string)
    requires Votes(b) ==> IsMirror(bs, lower, b)
    ensures IsWinner(bs, lower, winner) <==> IsWinner(bs + [b], lower, winner)
  {
    var all := bs + [b];
    forall i | 0 <= i < |all|
      ensures Elected(all, lower, i) <==> Elected(bs, lower, i)
    {
      MirrorKeepsElected(bs, lower, b, i);
    }
    assert forall i :: 0 <= i < |bs| ==> all[i] == bs[i];
    if Votes(b) {
      var j :| 0 <= j < |bs| && Votes(bs[j]) && Family(bs[j], lower) == Family(b, lower) && Weight(bs[j]) >= Weight(b);
      assert Votes(all[j]);
    }
    if exists i :: 0 <= i < |bs| && Votes(bs[i]) {
      var i :| 0 <= i < |bs| && Votes(bs[i]);
      assert Votes(all[i]);
    }
  }

  lemma MirrorKeepsElected(bs: seq<Ballot>, lower: string -> string, b: Ballot, i: nat)
    requires i <= |bs| && (Votes(b) ==> IsMirror(bs, lower, b))
    ensures Elected(bs + [b], lower, i) <==> Elected(bs, lower, i)
  {
    var all := bs + [b];
    MirrorKeepsSpeakers(bs, lower, b, i);
    MirrorKeepsSpeakers(bs, lower, b, |bs|);
    if i < |bs| {
      forall j | 0 <= j < |bs|
        ensures Speaks(all, lower, j) <==> Speaks(bs, lower, j)
        ensures Above(all, lower, i, j) <==> Above(bs, lower, i, j)
      {
        MirrorKeepsSpeakers(bs, lower, b, j);
        MirrorKeepsAbove(bs, lower, b, i, j);
      }
    }
  }

  lemma MirrorKeepsAbove(bs: seq<Ballot>, lower: string -> string, b: Ballot, i: nat, j: nat)
    requires i < |bs| && j < |bs| && (Votes(b) ==> IsMirror(bs, lower, b))
    ensures Above(bs + [b], lower, i, j) <==> Above(bs, lower, i, j)
  {
    var all := bs + [b];
    assert all[i] == bs[i] && all[j] == bs[j];
    MirrorKeepsFinalTotal(bs, lower, b, Key(bs[i], lower));
    MirrorKeepsFinalTotal(bs, lower, b, Key(bs[j], lower));
  }

  lemma MirrorKeepsFinalTotal(bs: seq<Ballot>, lower: string -> string, b: Ballot, key: string)
    requires Votes(b) ==> IsMirror(bs, lower, b)
    ensures Total(bs + [b], lower, key, |bs + [b]|) == Total(bs, lower, key, |bs|)
  {
    var n := |bs|;
    MirrorIsSilent(bs, lower, b);
    MirrorKeepsTotals(bs, lower, b, key, n);
    TotalWithoutSpeaker(bs + [b], lower, key, n);
  }

  lemma MirrorIsSilent(bs: seq<Ballot>, lower: string -> string, b: Ballot)
    requires Votes(b) ==> IsMirror(bs, lower, b)
    ensures !Speaks(bs + [b], lower, |bs|)
  {
    MirrorKeepsSpeakers(bs, lower, b, |bs|);
  }

  lemma TotalWithoutSpeaker(all: seq<Ballot>, lower: string -> string, key: string, n: nat)
    requires n < |all| && !Speaks(all, lower, n)
    ensures Total(all, lower, key, n + 1) == Total(all, lower, key, n)
  {
  }
}
