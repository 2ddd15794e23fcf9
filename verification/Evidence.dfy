/**
 Choosing the quotes behind an insight (app/services/pr_grounding_service.py:16-79): score them,
 sort by falling score, and take them greedily with no entity used twice.

 The score is any function of the text and the quote that is never negative.  A missing id is "".
 */
module Evidence {
  import opened Text
  import opened Sorting

  const MAX_QUOTE_LENGTH: nat := 900

  datatype Quote = Quote(text: string, title: string, entityId: string, documentId: string,
                         audioId: string, transcriptId: string, chunkId: string)

  datatype Item = Item(quote: string, entityId: string, documentId: string, audioId: string,
                       transcriptId: string, chunkId: string)

  /** A candidate with its place in the input, which tells equal quotes apart. */
  datatype Scored = Scored(at: nat, score: real, quote: Quote)

  type Scoring = (string, Quote) -> real

  type Positive = n: nat | n >= 1 witness 1

  function Clip(s: string, limit: nat): (r: string)
    ensures r <= s && |r| == Min(|s|, limit)
  {
    if |s| <= limit then s else s[..limit]
  }

  function EvidenceItem(q: Quote): Item {
    Item(Clip(q.text, MAX_QUOTE_LENGTH), q.entityId, q.documentId, q.audioId, q.transcriptId, q.chunkId)
  }

  predicate Eligible(t: string, q: Quote, score: Scoring) {
    |Strip(q.text)| >= 10 && score(t, q) >= 0.01
  }

  /** The eligible ones among the first `n` quotes, in input order. */
  function Candidates(t: string, quotes: seq<Quote>, score: Scoring, n: nat): seq<Scored>
    requires n <= |quotes|
  {
    if n == 0 then []
    else
      Candidates(t, quotes, score, n - 1)
      + if Eligible(t, quotes[n - 1], score) then [Scored(n - 1, score(t, quotes[n - 1]), quotes[n - 1])] else []
  }

  const HIGHER: (Scored, Scored) -> bool := (x: Scored, y: Scored) => x.score > y.score

  function With(used: set<string>, entityId: string): set<string> {
    if entityId == "" then used else used + {entityId}
  }

  function Greedy(s: seq<Scored>, used: set<string>, room: nat): (r: seq<Scored>)
    ensures |r| <= room
  {
    if s == [] || room == 0 then []
    else if s[0].quote.entityId in used then Greedy(s[1..], used, room)
    else [s[0]] + Greedy(s[1..], With(used, s[0].quote.entityId), room - 1)
  }

  /** Everything the greedy loop would take for `text`. */
  function Chosen(text: string, quotes: seq<Quote>, score: Scoring, maxN: Positive): seq<Scored> {
    var t := Strip(text);
    if |t| < 4 || quotes == [] then []
    else Greedy(Sort(Candidates(t, quotes, score, |quotes|), HIGHER), {}, maxN)
  }

  function Items(chosen: seq<Scored>): (r: seq<Item>)
    ensures |r| == |chosen|
  {
    seq(|chosen|, i requires 0 <= i < |chosen| => EvidenceItem(chosen[i].quote))
  }

  function Picked(text: string, quotes: seq<Quote>, score: Scoring, minN: nat, maxN: Positive): seq<Item> {
    var chosen := Chosen(text, quotes, score, maxN);
    if |chosen| < minN then [] else Items(chosen)
  }

  method PickEvidenceForText(text: string, quotes: seq<Quote>, score: Scoring, minN: nat, maxN: Positive)
    returns (out: seq<Item>)
    ensures out == Picked(text, quotes, score, minN, maxN)
  {
    hide Strip, Greedy, Sort, Items;
    var t := Strip(text);
    if |t| < 4 || quotes == [] {
      return [];
    }
    var scored := [];
    for i := 0 to |quotes|
      invariant scored == Candidates(t, quotes, score, i)
    {
      var q := quotes[i];
      if |Strip(q.text)| < 10 {
        continue;
      }
      var s := score(t, q);
      if s < 0.01 {
        continue;
      }
      scored := scored + [Scored(i, s, q)];
    }
    scored := Sort(scored, HIGHER);
    out := TakeGreedily(scored, maxN);
    if |out| < minN {
      return [];
    }
  }

  /** The selection loop. */
  method TakeGreedily(scored: seq<Scored>, maxN: Positive) returns (out: seq<Item>)
    ensures out == Items(Greedy(scored, {}, maxN))
  {
    hide Greedy, Items;
    out := [];
    var used: set<string> := {};
    GreedyEnds([], used, 0);
    ghost var taken, rest := [], Greedy(scored, {}, maxN);
    for i := 0 to |scored|
      invariant "" !in used && |out| == |taken| < maxN
      invariant rest == Greedy(scored[i..], used, maxN - |taken|)
      invariant Greedy(scored, {}, maxN) == taken + rest
      invariant out == Items(taken)
    {
      var q := scored[i].quote;
      GreedyStep(scored, i, used, maxN - |taken|);
      if q.entityId != "" && q.entityId in used {
        continue;
      }
      if q.entityId != "" {
        used := used + {q.entityId};
      }
      out := out + [EvidenceItem(q)];
      ItemsAppend(taken, scored[i]);
      taken, rest := taken + [scored[i]], rest[1..];
      if |out| >= maxN {
        GreedyEnds(scored[i + 1..], used, maxN - |taken|);
        assert Greedy(scored, {}, maxN) == taken + rest == taken;
        return;
      }
    }
    GreedyEnds(scored[|scored|..], used, maxN - |taken|);
    assert taken + rest == taken;
  }

  lemma GreedyEnds(s: seq<Scored>, used: set<string>, room: nat)
    requires s == [] || room == 0
    ensures Greedy(s, used, room) == [] && Items([]) == []
  {
  }

  lemma ItemsAppend(s: seq<Scored>, x: Scored)
    ensures Items(s + [x]) == Items(s) + [EvidenceItem(x.quote)]
  {
  }

  lemma GreedyStep(s: seq<Scored>, i: nat, used: set<string>, room: nat)
    requires i < |s| && room > 0
    ensures var e := s[i].quote.entityId;
            Greedy(s[i..], used, room) ==
            if e in used then Greedy(s[i + 1..], used, room)
            else [s[i]] + Greedy(s[i + 1..], With(used, e), room - 1)
  {
  }

  // ----- sets of candidates

  /** No entity twice; a candidate without an entity never clashes. */
  predicate Independent(rival: set<Scored>) {
    forall x, y :: x in rival && y in rival && x != y && x.quote.entityId != "" ==>
      x.quote.entityId != y.quote.entityId
  }

  predicate Avoids(rival: set<Scored>, used: set<string>) {
    forall x :: x in rival ==> x.quote.entityId !in used
  }

  /** Total score of the candidates in `s` that belong to the set. */
  function Total(s: seq<Scored>, rival: set<Scored>): real {
    if s == [] then 0.0 else (if s[0] in rival then s[0].score else 0.0) + Total(s[1..], rival)
  }

  lemma {:induction false} TotalWithout(s: seq<Scored>, rival: set<Scored>, x: Scored)
    requires Distinct(s)
    ensures Total(s, rival - {x}) == Total(s, rival) - if x in rival && x in s then x.score else 0.0
  {
    if s == [] {
    } else {
      TotalWithout(s[1..], rival, x);
      assert x in s <==> x == s[0] || x in s[1..];
    }
  }

  lemma {:induction false} TotalOfNothing(s: seq<Scored>)
    ensures Total(s, {}) == 0.0
  {
    if s == [] {
    } else {
      TotalOfNothing(s[1..]);
    }
  }

  /** The greedy choice uses no entity twice and nothing from outside the list. */
  lemma {:induction false} GreedyIsIndependent(s: seq<Scored>, used: set<string>, room: nat)
    requires Distinct(s) && "" !in used
    ensures var g := Greedy(s, used, room);
            && Members(g) <= Members(s) && Distinct(g)
            && Independent(Members(g)) && Avoids(Members(g), used)
  {
    if s == [] || room == 0 {
    } else {
      var e := s[0].quote.entityId;
      if e in used {
        GreedyIsIndependent(s[1..], used, room);
      } else {
        GreedyIsIndependent(s[1..], With(used, e), room - 1);
        var rest := Greedy(s[1..], With(used, e), room - 1);
        assert Members([s[0]] + rest) == {s[0]} + Members(rest);
      }
    }
  }

  /** The candidate the greedy step displaces: a clash if there is one, else any member. */
  lemma Displaced(s: seq<Scored>, rival: set<Scored>) returns (x: Scored)
    requires s != [] && rival != {} && rival <= Members(s) && Independent(rival)
    ensures x in rival && Avoids(rival - {x}, With({}, s[0].quote.entityId))
    ensures s[0] in rival ==> x == s[0]
  {
    var e := s[0].quote.entityId;
    if s[0] in rival {
      x := s[0];
    } else if e != "" && exists y :: y in rival && y.quote.entityId == e {
      x :| x in rival && x.quote.entityId == e;
    } else {
      x :| x in rival;
    }
  }

  /** Greedy is optimal for score and for number, against every independent set that fits. */
  lemma {:induction false} GreedyIsOptimal(s: seq<Scored>, used: set<string>, room: nat, rival: set<Scored>)
    requires SortedBy(s, HIGHER) && Distinct(s) && "" !in used
    requires forall x :: x in s ==> x.score >= 0.0
    requires rival <= Members(s) && Independent(rival) && Avoids(rival, used) && |rival| <= room
    ensures Total(s, rival) <= Sum(Greedy(s, used, room))
    ensures |rival| <= |Greedy(s, used, room)|
  {
    hide Independent, Avoids, HIGHER;
    if rival == {} {
      TotalOfNothing(s);
      SumIsNonNegative(s, used, room);
    } else {
      if s[0].quote.entityId in used {
        RivalInTail(s, used, rival);
        GreedyIsOptimal(s[1..], used, room, rival);
      } else {
        var x := RivalWithoutOne(s, used, rival);
        GreedyIsOptimal(s[1..], With(used, s[0].quote.entityId), room - 1, rival - {x});
      }
    }
  }

  lemma RivalInTail(s: seq<Scored>, used: set<string>, rival: set<Scored>)
    requires s != [] && rival <= Members(s) && Avoids(rival, used) && s[0].quote.entityId in used
    ensures s[0] !in rival && rival <= Members(s[1..])
  {
  }

  /** Giving up the displaced member costs no more than the head earns, and frees the head's entity. */
  lemma RivalWithoutOne(s: seq<Scored>, used: set<string>, rival: set<Scored>) returns (x: Scored)
    requires s != [] && SortedBy(s, HIGHER) && Distinct(s) && s[0].quote.entityId !in used
    requires rival != {} && rival <= Members(s) && Independent(rival) && Avoids(rival, used)
    ensures x in rival && x.score <= s[0].score
    ensures var e, less := s[0].quote.entityId, rival - {x};
            && less <= Members(s[1..]) && Independent(less) && Avoids(less, With(used, e))
            && |less| == |rival| - 1 && Total(s, rival) == x.score + Total(s[1..], less)
  {
    x := Displaced(s, rival);
    HeadScoresMost(s, x);
    TotalWithout(s, rival, x);
  }

  lemma HeadScoresMost(s: seq<Scored>, x: Scored)
    requires SortedBy(s, HIGHER) && x in s
    ensures x.score <= s[0].score
  {
  }

  function Sum(s: seq<Scored>): real {
    if s == [] then 0.0 else s[0].score + Sum(s[1..])
  }

  lemma {:induction false} SumIsNonNegative(s: seq<Scored>, used: set<string>, room: nat)
    requires forall x :: x in s ==> x.score >= 0.0
    ensures Sum(Greedy(s, used, room)) >= 0.0
  {
    if s == [] || room == 0 {
    } else {
      if s[0].quote.entityId in used {
        SumIsNonNegative(s[1..], used, room);
      } else {
        SumIsNonNegative(s[1..], With(used, s[0].quote.entityId), room - 1);
      }
    }
  }

  // ----- the choice as a whole

  lemma {:induction false} CandidatesAreEligible(t: string, quotes: seq<Quote>, score: Scoring, n: nat)
    requires n <= |quotes|
    ensures var c := Candidates(t, quotes, score, n);
            && Distinct(c)
            && (forall x :: x in c <==>
                  && x.at < n && x.quote == quotes[x.at] && x.score == score(t, quotes[x.at])
                  && |Strip(quotes[x.at].text)| >= 10 && score(t, quotes[x.at]) >= 0.01)
  {
    hide Strip;
    if n == 0 {
    } else {
      CandidatesAreEligible(t, quotes, score, n - 1);
    }
  }

  lemma HigherIsWeakOrder()
    ensures WeakOrder(HIGHER)
  {
  }

  lemma {:induction false} TotalInsert(x: Scored, s: seq<Scored>, rival: set<Scored>)
    ensures Total(Insert(x, s, HIGHER), rival) == (if x in rival then x.score else 0.0) + Total(s, rival)
  {
    if s == [] {
    } else if HIGHER(s[0], x) {
      TotalInsert(x, s[1..], rival);
    }
  }

  lemma {:induction false} TotalSort(s: seq<Scored>, rival: set<Scored>)
    ensures Total(Sort(s, HIGHER), rival) == Total(s, rival)
  {
    if s == [] {
    } else {
      TotalSort(s[1..], rival);
      TotalInsert(s[0], Sort(s[1..], HIGHER), rival);
    }
  }

  /** A set of eligible quotes that uses no entity twice and is not larger than allowed. */
  ghost predicate Rival(text: string, quotes: seq<Quote>, score: Scoring, maxN: nat, rival: set<Scored>) {
    rival <= Members(Candidates(Strip(text), quotes, score, |quotes|)) && Independent(rival) && |rival| <= maxN
  }

  /** The chosen quotes are themselves a rival, and beat every rival in total score and in number. */
  lemma ChosenIsOptimal(text: string, quotes: seq<Quote>, score: Scoring, maxN: Positive, rival: set<Scored>)
    requires |Strip(text)| >= 4 && Rival(text, quotes, score, maxN, rival)
    ensures var chosen, all := Chosen(text, quotes, score, maxN), Candidates(Strip(text), quotes, score, |quotes|);
            && Distinct(chosen) && Rival(text, quotes, score, maxN, Members(chosen))
            && Total(all, rival) <= Sum(chosen) && |rival| <= |chosen|
  {
    var t := Strip(text);
    var all := Candidates(t, quotes, score, |quotes|);
    var sorted, chosen := Sort(all, HIGHER), Chosen(text, quotes, score, maxN);
    CandidatesAreEligible(t, quotes, score, |quotes|);
    HigherIsWeakOrder();
    SortSorts(all, HIGHER);
    SortKeepsMembers(all, HIGHER);
    SortKeepsDistinct(all, HIGHER);
    TotalSort(all, rival);
    GreedyIsIndependent(sorted, {}, maxN);
    GreedyIsOptimal(sorted, {}, maxN, rival);
    MembersSize(chosen);
  }

  /** Nothing is returned exactly when no independent set of `minN` eligible quotes exists. */
  lemma EmptyExactlyWhenTooFew(text: string, quotes: seq<Quote>, score: Scoring, minN: Positive, maxN: Positive)
    requires |Strip(text)| >= 4 && minN <= maxN
    ensures Picked(text, quotes, score, minN, maxN) == [] <==>
            forall rival :: Rival(text, quotes, score, maxN, rival) ==> |rival| < minN
  {
    var chosen := Chosen(text, quotes, score, maxN);
    ChosenIsOptimal(text, quotes, score, maxN, {});
    MembersSize(chosen);
    forall rival | Rival(text, quotes, score, maxN, rival) ensures |rival| <= |chosen| {
      ChosenIsOptimal(text, quotes, score, maxN, rival);
    }
  }

  // ----- which quotes, and in which order

  /** Higher score first, equal scores in input order. */
  predicate Before(x: Scored, y: Scored) {
    x.score > y.score || (x.score == y.score && x.at < y.at)
  }

  predicate Ranked(s: seq<Scored>) {
    forall i, j :: 0 <= i < j < |s| ==> Before(s[i], s[j])
  }

  lemma {:induction false} InsertRanks(x: Scored, s: seq<Scored>)
    requires Ranked(s) && forall y :: y in s ==> x.at < y.at
    ensures Ranked(Insert(x, s, HIGHER))
    ensures forall y :: y in Insert(x, s, HIGHER) <==> y == x || y in s
  {
    if s == [] {
    } else if HIGHER(s[0], x) {
      InsertRanks(x, s[1..]);
      assert forall y :: y in s <==> y == s[0] || y in s[1..];
    } else {
      assert forall y :: y in s ==> Before(x, y);
    }
  }

  /** The sort is stable: candidates listed in input order come out ranked. */
  lemma {:induction false} SortRanks(s: seq<Scored>)
    requires forall i, j :: 0 <= i < j < |s| ==> s[i].at < s[j].at
    ensures Ranked(Sort(s, HIGHER))
  {
    if s == [] {
    } else {
      SortRanks(s[1..]);
      SortKeepsMembers(s[1..], HIGHER);
      InsertRanks(s[0], Sort(s[1..], HIGHER));
    }
  }

  lemma {:induction false} CandidatesInOrder(t: string, quotes: seq<Quote>, score: Scoring, n: nat)
    requires n <= |quotes|
    ensures var c := Candidates(t, quotes, score, n);
            && (forall x :: x in c ==> x.at < n)
            && (forall i, j :: 0 <= i < j < |c| ==> c[i].at < c[j].at)
  {
    hide Eligible;
    if n == 0 {
    } else {
      CandidatesInOrder(t, quotes, score, n - 1);
    }
  }

  /** `x` is passed over for one of the taken before it: the same entity, or no room left. */
  predicate PassedOver(x: Scored, taken: seq<Scored>, used: set<string>, room: nat) {
    || x.quote.entityId in used
    || (exists y :: y in taken && Before(y, x) && y.quote.entityId == x.quote.entityId != "")
    || (|taken| == room && forall y :: y in taken ==> Before(y, x))
  }

  /** The greedy choice, candidate by candidate: ranked, and what it leaves it leaves for a reason. */
  lemma {:induction false} GreedyExactly(s: seq<Scored>, used: set<string>, room: nat)
    requires Ranked(s) && "" !in used
    ensures var taken := Greedy(s, used, room);
            && Ranked(taken) && (forall x :: x in taken ==> x in s)
            && (forall x :: x in s && x !in taken ==> PassedOver(x, taken, used, room))
  {
    if s == [] || room == 0 {
    } else if s[0].quote.entityId in used {
      GreedyExactly(s[1..], used, room);
    } else {
      var now := With(used, s[0].quote.entityId);
      GreedyExactly(s[1..], now, room - 1);
      var rest := Greedy(s[1..], now, room - 1);
      assert forall x :: x in rest ==> x in s[1..] && Before(s[0], x);
      forall x | x in s && x !in [s[0]] + rest ensures PassedOver(x, [s[0]] + rest, used, room) {
        assert x in s[1..] && Before(s[0], x);
        assert PassedOver(x, rest, now, room - 1);
        assert forall y :: y in [s[0]] + rest <==> y == s[0] || y in rest;
      }
    }
  }

  /** What an item shows: the first 900 characters of the quote, and the quote's ids. */
  ghost predicate Shows(it: Item, q: Quote) {
    && (if |q.text| <= 900 then it.quote == q.text else it.quote == q.text[..900])
    && it.entityId == q.entityId && it.documentId == q.documentId && it.audioId == q.audioId
    && it.transcriptId == q.transcriptId && it.chunkId == q.chunkId
  }

  /** A supplied quote of at least ten visible characters that scores at least 0.01. */
  ghost predicate IsScored(text: string, quotes: seq<Quote>, score: Scoring, x: Scored) {
    && x.at < |quotes| && x.quote == quotes[x.at] && x.score == score(Strip(text), quotes[x.at])
    && |Strip(x.quote.text)| >= 10 && x.score >= 0.01
  }

  /** Scored quotes, ranked, no entity twice, and none left out without a reason. */
  ghost predicate ChosenWell(text: string, quotes: seq<Quote>, score: Scoring, maxN: nat, chosen: seq<Scored>) {
    && |chosen| <= maxN && Ranked(chosen)
    && (forall x :: x in chosen ==> IsScored(text, quotes, score, x))
    && (forall i, j :: 0 <= i < j < |chosen| && chosen[i].quote.entityId != "" ==>
          chosen[i].quote.entityId != chosen[j].quote.entityId)
    && (forall x :: IsScored(text, quotes, score, x) && x !in chosen ==> PassedOver(x, chosen, {}, maxN))
  }

  /**
   What a caller sees.  A text of fewer than four visible characters gets nothing; any other gets what
   the chosen quotes show when they are at least `minN`, and nothing when they are fewer.
   */
  lemma PickedItems(text: string, quotes: seq<Quote>, score: Scoring, minN: nat, maxN: Positive)
    ensures var out, chosen := Picked(text, quotes, score, minN, maxN), Chosen(text, quotes, score, maxN);
            && (|Strip(text)| < 4 ==> out == [])
            && (|Strip(text)| >= 4 ==>
                  && ChosenWell(text, quotes, score, maxN, chosen)
                  && |out| == (if |chosen| < minN then 0 else |chosen|)
                  && forall i :: 0 <= i < |out| ==> Shows(out[i], chosen[i].quote))
  {
    if |Strip(text)| >= 4 {
      ChosenIsWell(text, quotes, score, maxN);
    }
    hide Chosen, Strip, ChosenWell;
  }

  lemma ChosenIsWell(text: string, quotes: seq<Quote>, score: Scoring, maxN: Positive)
    requires |Strip(text)| >= 4
    ensures ChosenWell(text, quotes, score, maxN, Chosen(text, quotes, score, maxN))
  {
    var t, chosen := Strip(text), Chosen(text, quotes, score, maxN);
    var all := Candidates(t, quotes, score, |quotes|);
    CandidatesAreEligible(t, quotes, score, |quotes|);
    CandidatesInOrder(t, quotes, score, |quotes|);
    SortRanks(all);
    SortKeepsMembers(all, HIGHER);
    GreedyExactly(Sort(all, HIGHER), {}, maxN);
    ChosenEntities(text, quotes, score, maxN);
    hide Before, PassedOver, Strip, Candidates;
    assert forall x :: x in all <==> IsScored(text, quotes, score, x);
  }

  lemma ChosenEntities(text: string, quotes: seq<Quote>, score: Scoring, maxN: Positive)
    requires |Strip(text)| >= 4
    ensures var chosen := Chosen(text, quotes, score, maxN);
            forall i, j :: 0 <= i < j < |chosen| && chosen[i].quote.entityId != "" ==>
              chosen[i].quote.entityId != chosen[j].quote.entityId
  {
    var chosen := Chosen(text, quotes, score, maxN);
    ChosenIsOptimal(text, quotes, score, maxN, {});
    hide Candidates, Chosen, Strip, Total, Sum;
    assert forall x :: x in chosen ==> x in Members(chosen);
  }
}
