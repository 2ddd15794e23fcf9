/**
 From strategy texts and action cards to evidence insights: enrich the cards, ground the texts,
 shape the insights, link the cards back (app/services/pr_grounding_service.py:82-173,
 app/services/evidence_driven_bundle.py:104-201; order of the calls as in
 app/services/pr_strategy_service.py:337-367).

 Every specification function works on the first `n` elements, as the loops do.  `ids` stands for the
 stream of fresh insight ids.
 */
module Grounding {
  import opened Text
  import opened Evidence
  import opened Wrappers

  const MAX_TEXT_LENGTH: nat := 2000

  datatype Card = Card(action: string, message: string, refs: seq<Item>, ok: bool, basedOn: seq<string>)

  datatype Kind = KeyPrInsight | ReputationalRisk | RecommendedMessage | ActionCard

  datatype Row = Row(insightId: string, insight: string, kind: Kind, evidence: seq<Item>)

  datatype Strategy = Strategy(insights: seq<string>, risks: seq<string>, messages: seq<string>, cards: seq<Card>)

  datatype Insight = Insight(insightId: string, insight: string, count: nat, coverage: real, evidence: seq<Item>)

  type IdStream = nat -> string

  // ----- enrich_action_cards_with_evidence

  function CardText(c: Card): string {
    Strip(if c.message != "" then c.message else c.action)
  }

  function EnrichedCard(c: Card, quotes: seq<Quote>, score: Scoring): Card {
    var text := CardText(c);
    var ev := if text != "" then Picked(text, quotes, score, 2, 5) else [];
    Card(Clip(Strip(c.action), 900), Clip(Strip(c.message), 900), if |ev| >= 2 then ev else [], |ev| >= 2, c.basedOn)
  }

  function Enriched(cards: seq<Card>, quotes: seq<Quote>, score: Scoring, n: nat): (r: seq<Card>)
    requires n <= |cards|
    ensures |r| == n
  {
    if n == 0 then [] else Enriched(cards, quotes, score, n - 1) + [EnrichedCard(cards[n - 1], quotes, score)]
  }

  method EnrichActionCards(cards: seq<Card>, quotes: seq<Quote>, score: Scoring) returns (out: seq<Card>)
    ensures out == Enriched(cards, quotes, score, |cards|)
    ensures forall i :: 0 <= i < |cards| ==>
              var text := Strip(if cards[i].message != "" then cards[i].message else cards[i].action);
              var ev := if text == "" then [] else Picked(text, quotes, score, 2, 5);
              && out[i].refs == (if |ev| >= 2 then ev else []) && (out[i].ok <==> |ev| >= 2)
              && out[i].action == Clip(Strip(cards[i].action), 900) && out[i].message == Clip(Strip(cards[i].message), 900)
              && out[i].basedOn == cards[i].basedOn
  {
    hide Picked, Strip, Clip;
    out := [];
    for i := 0 to |cards|
      invariant out == Enriched(cards, quotes, score, i)
      invariant forall j :: 0 <= j < i ==> out[j] == EnrichedCard(cards[j], quotes, score)
    {
      var raw := cards[i];
      var text := CardText(raw);
      var ev := [];
      if text != "" {
        ev := PickEvidenceForText(text, quotes, score, 2, 5);
      }
      var ok := |ev| >= 2;
      out := out + [Card(Clip(Strip(raw.action), 900), Clip(Strip(raw.message), 900),
                         if ok then ev else [], ok, raw.basedOn)];
    }
  }

  // ----- build_pr_grounding

  /** Rows of the first `n` texts of one block; `before` rows came earlier. */
  function TextRows(kind: Kind, texts: seq<string>, quotes: seq<Quote>, score: Scoring, ids: IdStream,
                    before: nat, n: nat): seq<Row>
    requires n <= |texts|
  {
    if n == 0 then []
    else
      var rows := TextRows(kind, texts, quotes, score, ids, before, n - 1);
      var t := Strip(texts[n - 1]);
      var ev := Picked(t, quotes, score, 2, 5);
      if t == "" || |ev| < 2 then rows
      else rows + [Row(ids(before + |rows|), Clip(t, MAX_TEXT_LENGTH), kind, ev)]
  }

  /** The references of a card that show something. */
  function VisibleRefs(refs: seq<Item>): seq<Item> {
    if refs == [] then []
    else VisibleRefs(refs[..|refs| - 1])
         + if Strip(refs[|refs| - 1].quote) != "" then [refs[|refs| - 1]] else []
  }

  function CardEvidence(c: Card, quotes: seq<Quote>, score: Scoring): seq<Item> {
    var norm := VisibleRefs(c.refs);
    if |norm| < 2 then Picked(CardText(c), quotes, score, 2, 5) else norm
  }

  function CardRows(cards: seq<Card>, quotes: seq<Quote>, score: Scoring, ids: IdStream, n: nat): seq<Row>
    requires n <= |cards|
  {
    if n == 0 then []
    else
      var rows := CardRows(cards, quotes, score, ids, n - 1);
      var text, ev := CardText(cards[n - 1]), CardEvidence(cards[n - 1], quotes, score);
      if |text| < 8 || |ev| < 2 then rows
      else rows + [Row(ids(|rows|), Clip(text, MAX_TEXT_LENGTH), ActionCard, if |ev| <= 5 then ev else ev[..5])]
  }

  function Rows(s: Strategy, quotes: seq<Quote>, score: Scoring, ids: IdStream): seq<Row> {
    var a := TextRows(KeyPrInsight, s.insights, quotes, score, ids, 0, |s.insights|);
    var b := TextRows(ReputationalRisk, s.risks, quotes, score, ids, |a|, |s.risks|);
    var c := TextRows(RecommendedMessage, s.messages, quotes, score, ids, |a| + |b|, |s.messages|);
    if a + b + c == [] then CardRows(s.cards, quotes, score, ids, |s.cards|) else a + b + c
  }

  method GroundTexts(kind: Kind, texts: seq<string>, quotes: seq<Quote>, score: Scoring, ids: IdStream,
                     rows: seq<Row>) returns (r: seq<Row>)
    ensures r == rows + TextRows(kind, texts, quotes, score, ids, |rows|, |texts|)
  {
    hide Picked, Strip, Clip;
    r := rows;
    for i := 0 to |texts|
      invariant r == rows + TextRows(kind, texts, quotes, score, ids, |rows|, i)
    {
      var t := Strip(texts[i]);
      if t == "" {
        continue;
      }
      var ev := PickEvidenceForText(t, quotes, score, 2, 5);
      if |ev| < 2 {
        continue;
      }
      r := r + [Row(ids(|r|), Clip(t, MAX_TEXT_LENGTH), kind, ev)];
    }
  }

  method KeepVisibleRefs(refs: seq<Item>) returns (norm: seq<Item>)
    ensures norm == VisibleRefs(refs)
  {
    hide Strip;
    norm := [];
    for j := 0 to |refs|
      invariant norm == VisibleRefs(refs[..j])
    {
      assert refs[..j + 1][..j] == refs[..j];
      if Strip(refs[j].quote) != "" {
        norm := norm + [refs[j]];
      }
    }
    assert refs[..|refs|] == refs;
  }

  method BuildPrGrounding(s: Strategy, quotes: seq<Quote>, score: Scoring, ids: IdStream) returns (rows: seq<Row>)
    ensures rows == Rows(s, quotes, score, ids)
  {
    hide Picked, Strip, Clip, VisibleRefs, CardText, TextRows;
    rows := GroundTexts(KeyPrInsight, s.insights, quotes, score, ids, []);
    rows := GroundTexts(ReputationalRisk, s.risks, quotes, score, ids, rows);
    rows := GroundTexts(RecommendedMessage, s.messages, quotes, score, ids, rows);
    if rows == [] {
      for i := 0 to |s.cards|
        invariant rows == CardRows(s.cards, quotes, score, ids, i)
      {
        var text := CardText(s.cards[i]);
        if |text| < 8 {
          continue;
        }
        var norm := KeepVisibleRefs(s.cards[i].refs);
        if |norm| < 2 {
          norm := PickEvidenceForText(text, quotes, score, 2, 5);
        }
        if |norm| < 2 {
          continue;
        }
        rows := rows + [Row(ids(|rows|), Clip(text, MAX_TEXT_LENGTH), ActionCard, if |norm| <= 5 then norm else norm[..5])];
      }
    }
  }

  // ----- evidence_insights_from_grounding

  /** One decimal place. */
  function Round1(x: real): (r: real)
    ensures -0.05 <= r - x <= 0.05 && (r * 10.0).Floor as real == r * 10.0
    ensures x >= 100.0 ==> r >= 100.0
  {
    var tenths := (x * 10.0 + 0.5).Floor;
    assert (tenths as real / 10.0) * 10.0 == tenths as real;
    tenths as real / 10.0
  }

  function Shaped(ev: seq<Item>, n: nat): seq<Item>
    requires n <= |ev|
  {
    if n == 0 then []
    else
      var quote := Clip(ev[n - 1].quote, MAX_QUOTE_LENGTH);
      Shaped(ev, n - 1) + if |quote| < 4 then [] else [ev[n - 1].(quote := quote)]
  }

  function DocumentIds(ev: seq<Item>): set<string> {
    set it | it in ev && it.documentId != "" :: it.documentId
  }

  function AudioIds(ev: seq<Item>): set<string> {
    set it | it in ev && it.audioId != "" :: it.audioId
  }

  function TranscriptIds(ev: seq<Item>): set<string> {
    set it | it in ev && it.transcriptId != "" :: it.transcriptId
  }

  function Prefixed(prefix: string, ids: set<string>): set<string> {
    set id | id in ids :: prefix + id
  }

  /** The sources and transcripts the shaped evidence comes from. */
  function SourceKeys(ev: seq<Item>): set<string> {
    Prefixed("doc:", DocumentIds(ev)) + Prefixed("audio:", AudioIds(ev)) + Prefixed("tr:", TranscriptIds(ev))
  }

  function Coverage(sources: nat, interviews: nat): (r: real)
    requires interviews >= 1
    ensures 0.0 <= r <= 100.0
    ensures var exact := 100.0 * sources as real / interviews as real;
            if exact >= 100.0 then r == 100.0 else -0.05 <= r - exact <= 0.05
    ensures (r * 10.0).Floor as real == r * 10.0
  {
    var x := Round1(100.0 * sources as real / interviews as real);
    assert 100.0 * sources as real / interviews as real >= 0.0;
    if x > 100.0 then 100.0 else x
  }

  function ShapedInsight(row: Row, interviews: nat): Option<Insight>
    requires interviews >= 1
  {
    var ev := Shaped(row.evidence, Min(5, |row.evidence|));
    var text, sources := Strip(row.insight), |SourceKeys(ev)|;
    if |row.evidence| < 2 || text == "" || |ev| < 2 then None
    else Some(Insight(row.insightId, Clip(text, MAX_TEXT_LENGTH), Max(|ev|, sources), Coverage(sources, interviews), ev))
  }

  function Insights(rows: seq<Row>, interviews: nat, n: nat): seq<Insight>
    requires interviews >= 1 && n <= |rows|
  {
    if n == 0 then []
    else
      var one := ShapedInsight(rows[n - 1], interviews);
      Insights(rows, interviews, n - 1) + if one.Some? then [one.value] else []
  }

  method EvidenceInsights(rows: seq<Row>, interviewCount: int) returns (out: seq<Insight>)
    ensures out == Insights(rows, Max(1, interviewCount), |rows|)
  {
    hide Strip, Clip, Coverage, SourceKeys, Prefixed, DocumentIds, AudioIds, TranscriptIds;
    SourceKeysOfNothing();
    var interviews := Max(1, interviewCount);
    out := [];
    for i := 0 to |rows|
      invariant out == Insights(rows, interviews, i)
    {
      var row := rows[i];
      var text := Strip(row.insight);
      if |row.evidence| < 2 || text == "" {
        continue;
      }
      var documents: set<string>, audios: set<string>, transcripts: set<string> := {}, {}, {};
      var shaped := [];
      for j := 0 to Min(5, |row.evidence|)
        invariant shaped == Shaped(row.evidence, j)
        invariant documents + audios + transcripts == SourceKeys(shaped)
      {
        var it := row.evidence[j];
        var quote := Clip(it.quote, MAX_QUOTE_LENGTH);
        if |quote| < 4 {
          continue;
        }
        var item := it.(quote := quote);
        ghost var was := shaped;
        shaped := shaped + [item];
        SourceKeysAppend(was, item);
        if it.documentId != "" {
          documents := documents + {"doc:" + it.documentId};
        }
        if it.audioId != "" {
          audios := audios + {"audio:" + it.audioId};
        }
        if it.transcriptId != "" {
          transcripts := transcripts + {"tr:" + it.transcriptId};
        }
      }
      if |shaped| < 2 {
        continue;
      }
      var sources := |documents + audios + transcripts|;
      out := out + [Insight(row.insightId, Clip(text, MAX_TEXT_LENGTH), Max(|shaped|, sources),
                            Coverage(sources, interviews), shaped)];
    }
  }

  lemma SourceKeysOfNothing()
    ensures SourceKeys([]) == {}
  {
  }

  lemma SourceKeysAppend(ev: seq<Item>, it: Item)
    ensures SourceKeys(ev + [it]) == SourceKeys(ev)
              + (if it.documentId != "" then {"doc:" + it.documentId} else {})
              + (if it.audioId != "" then {"audio:" + it.audioId} else {})
              + (if it.transcriptId != "" then {"tr:" + it.transcriptId} else {})
  {
    hide Prefixed, DocumentIds, AudioIds, TranscriptIds;
    IdsAppend(ev, it);
    PrefixedAppend("doc:", DocumentIds(ev), it.documentId);
    PrefixedAppend("audio:", AudioIds(ev), it.audioId);
    PrefixedAppend("tr:", TranscriptIds(ev), it.transcriptId);
  }

  lemma IdsAppend(ev: seq<Item>, it: Item)
    ensures DocumentIds(ev + [it]) == DocumentIds(ev) + OrNone(it.documentId)
    ensures AudioIds(ev + [it]) == AudioIds(ev) + OrNone(it.audioId)
    ensures TranscriptIds(ev + [it]) == TranscriptIds(ev) + OrNone(it.transcriptId)
  {
  }

  function OrNone(id: string): set<string> {
    if id == "" then {} else {id}
  }

  lemma PrefixedAppend(prefix: string, ids: set<string>, id: string)
    ensures Prefixed(prefix, ids + OrNone(id)) == Prefixed(prefix, ids) + if id == "" then {} else {prefix + id}
  {
    if id != "" {
      assert Prefixed(prefix, ids + {id}) == Prefixed(prefix, ids) + {prefix + id};
    } else {
      assert ids + {} == ids;
    }
  }

  // ----- attach_based_on_to_actions

  function EntityIds(items: seq<Item>): set<string> {
    set it | it in items && it.entityId != "" :: it.entityId
  }

  predicate Shares(c: Card, i: Insight) {
    exists it :: it in i.evidence && it.entityId in EntityIds(c.refs)
  }

  /** The ids of the first insights that share an entity with the card, five at most. */
  function Linked(c: Card, insights: seq<Insight>, n: nat): (r: seq<string>)
    requires n <= |insights|
    ensures |r| <= 5
  {
    if n == 0 then []
    else
      var ids := Linked(c, insights, n - 1);
      var last := insights[n - 1];
      if |ids| < 5 && last.insightId != "" && Shares(c, last) then ids + [last.insightId] else ids
  }

  function Attached(cards: seq<Card>, insights: seq<Insight>): (r: seq<Card>)
    ensures |r| == |cards|
  {
    seq(|cards|, i requires 0 <= i < |cards| => cards[i].(basedOn := Linked(cards[i], insights, |insights|)))
  }

  lemma {:induction false} LinkedStopsAtFive(c: Card, insights: seq<Insight>, n: nat, m: nat)
    requires n <= m <= |insights| && |Linked(c, insights, n)| == 5
    ensures Linked(c, insights, m) == Linked(c, insights, n)
    decreases m
  {
    if m <= n {
    } else {
      LinkedStopsAtFive(c, insights, n, m - 1);
    }
  }

  method AttachBasedOn(cards: seq<Card>, insights: seq<Insight>) returns (out: seq<Card>)
    ensures out == Attached(cards, insights)
    ensures forall i :: 0 <= i < |cards| ==> out[i] == cards[i].(basedOn := out[i].basedOn)
  {
    out := [];
    for k := 0 to |cards|
      invariant |out| == k
      invariant forall i :: 0 <= i < k ==> out[i] == cards[i].(basedOn := Linked(cards[i], insights, |insights|))
    {
      var refIds := EntityIds(cards[k].refs);
      var based := [];
      for n := 0 to |insights|
        invariant based == Linked(cards[k], insights, n) && |based| < 5
      {
        var hit := false;
        for j := 0 to |insights[n].evidence|
          invariant !hit && forall i :: 0 <= i < j ==> insights[n].evidence[i].entityId !in refIds
        {
          var id := insights[n].evidence[j].entityId;
          if id != "" && id in refIds {
            hit := true;
            break;
          }
        }
        assert hit <==> Shares(cards[k], insights[n]);
        if hit && insights[n].insightId != "" {
          based := based + [insights[n].insightId];
        }
        if |based| >= 5 {
          LinkedStopsAtFive(cards[k], insights, n + 1, |insights|);
          break;
        }
      }
      out := out + [cards[k].(basedOn := based)];
    }
  }

  // ----- the chain

  /** The item shows a supplied quote of at least ten visible characters. */
  ghost predicate FromQuotes(it: Item, quotes: seq<Quote>) {
    exists k :: 0 <= k < |quotes| && Shows(it, quotes[k]) && |Strip(quotes[k].text)| >= 10
  }

  ghost predicate AllFromQuotes(items: seq<Item>, quotes: seq<Quote>) {
    forall i :: 0 <= i < |items| ==> FromQuotes(items[i], quotes)
  }

  lemma PickedFromQuotes(text: string, quotes: seq<Quote>, score: Scoring)
    ensures AllFromQuotes(Picked(text, quotes, score, 2, 5), quotes)
    ensures |Picked(text, quotes, score, 2, 5)| <= 5
  {
    PickedItems(text, quotes, score, 2, 5);
    hide Picked, Chosen, Strip;
    var out, chosen := Picked(text, quotes, score, 2, 5), Chosen(text, quotes, score, 5);
    forall i | 0 <= i < |out| ensures FromQuotes(out[i], quotes) {
      assert chosen[i] in chosen && IsScored(text, quotes, score, chosen[i]);
      assert Shows(out[i], quotes[chosen[i].at]);
    }
  }

  lemma FromQuotesLength(it: Item, quotes: seq<Quote>)
    requires FromQuotes(it, quotes)
    ensures 10 <= |it.quote| <= 900
  {
    var k :| 0 <= k < |quotes| && Shows(it, quotes[k]) && |Strip(quotes[k].text)| >= 10;
  }

  /** After enrichment every reference of every card comes from the quotes, whatever it was before. */
  lemma {:induction false} EnrichedFromQuotes(cards: seq<Card>, quotes: seq<Quote>, score: Scoring, n: nat)
    requires n <= |cards|
    ensures forall i :: 0 <= i < n ==> var c := Enriched(cards, quotes, score, n)[i];
              AllFromQuotes(c.refs, quotes) && (c.refs == [] || 2 <= |c.refs| <= 5) && (c.ok <==> c.refs != [])
  {
    hide Picked, Strip, Clip;
    if n == 0 {
    } else {
      EnrichedFromQuotes(cards, quotes, score, n - 1);
      PickedFromQuotes(CardText(cards[n - 1]), quotes, score);
    }
  }

  ghost predicate Grounded(row: Row, quotes: seq<Quote>) {
    2 <= |row.evidence| <= 5 && AllFromQuotes(row.evidence, quotes)
  }

  /** Cutting a stripped text leaves its first character. */
  lemma StartShows(text: string)
    ensures Strip(text) != "" ==> Strip(Clip(Strip(text), 2000)) != ""
  {
    StripYieldsStripped(text);
    if Strip(text) != "" {
      var t := Clip(Strip(text), 2000);
      assert t[0] == Strip(text)[0];
      hide Strip, Clip;
      StripYieldsStripped(t);
    }
  }

  lemma {:induction false} TextRowsGrounded(kind: Kind, texts: seq<string>, quotes: seq<Quote>, score: Scoring,
                                            ids: IdStream, before: nat, n: nat)
    requires n <= |texts|
    ensures forall r :: r in TextRows(kind, texts, quotes, score, ids, before, n) ==>
              Grounded(r, quotes) && Strip(r.insight) != ""
  {
    hide Picked, Strip, Clip;
    if n == 0 {
    } else {
      StartShows(texts[n - 1]);
      TextRowsGrounded(kind, texts, quotes, score, ids, before, n - 1);
      PickedFromQuotes(Strip(texts[n - 1]), quotes, score);
    }
  }

  lemma {:induction false} VisibleRefsFromQuotes(refs: seq<Item>, quotes: seq<Quote>)
    requires AllFromQuotes(refs, quotes)
    ensures AllFromQuotes(VisibleRefs(refs), quotes)
  {
    if refs == [] {
    } else {
      VisibleRefsFromQuotes(refs[..|refs| - 1], quotes);
    }
  }

  lemma {:induction false} CardRowsGrounded(cards: seq<Card>, quotes: seq<Quote>, score: Scoring, ids: IdStream, n: nat)
    requires n <= |cards|
    requires forall i :: 0 <= i < |cards| ==> AllFromQuotes(cards[i].refs, quotes)
    ensures forall r :: r in CardRows(cards, quotes, score, ids, n) ==> Grounded(r, quotes) && Strip(r.insight) != ""
  {
    hide Picked, Strip, Clip;
    if n == 0 {
    } else {
      StartShows(if cards[n - 1].message != "" then cards[n - 1].message else cards[n - 1].action);
      CardRowsGrounded(cards, quotes, score, ids, n - 1);
      VisibleRefsFromQuotes(cards[n - 1].refs, quotes);
      PickedFromQuotes(CardText(cards[n - 1]), quotes, score);
    }
  }

  /** Shaping drops and cuts nothing that shows a supplied quote. */
  lemma {:induction false} ShapedKeepsAll(ev: seq<Item>, quotes: seq<Quote>, n: nat)
    requires n <= |ev| && AllFromQuotes(ev, quotes)
    ensures Shaped(ev, n) == ev[..n]
  {
    hide FromQuotes;
    if n == 0 {
    } else {
      ShapedKeepsAll(ev, quotes, n - 1);
      FromQuotesLength(ev[n - 1], quotes);
    }
  }

  ghost predicate Sound(i: Insight, quotes: seq<Quote>) {
    2 <= |i.evidence| <= 5 && AllFromQuotes(i.evidence, quotes) && 0.0 <= i.coverage <= 100.0 && i.count >= |i.evidence|
  }

  lemma {:induction false} InsightsSound(rows: seq<Row>, quotes: seq<Quote>, interviews: nat, n: nat)
    requires interviews >= 1 && n <= |rows|
    requires forall r :: r in rows ==> Grounded(r, quotes)
    ensures forall i :: i in Insights(rows, interviews, n) ==> Sound(i, quotes)
  {
    hide Strip, Clip, SourceKeys, FromQuotes, Shaped;
    if n == 0 {
    } else {
      InsightsSound(rows, quotes, interviews, n - 1);
      assert rows[n - 1] in rows;
      ShapedKeepsAll(rows[n - 1].evidence, quotes, |rows[n - 1].evidence|);
    }
  }

  /** With cards enriched first, every row shows something and rests on two to five supplied quotes. */
  lemma RowsGrounded(s: Strategy, quotes: seq<Quote>, score: Scoring, ids: IdStream)
    ensures forall r :: r in Rows(s.(cards := Enriched(s.cards, quotes, score, |s.cards|)), quotes, score, ids) ==>
              Grounded(r, quotes) && Strip(r.insight) != ""
  {
    hide Strip, Grounded, TextRows, CardRows;
    var enriched := s.(cards := Enriched(s.cards, quotes, score, |s.cards|));
    EnrichedFromQuotes(s.cards, quotes, score, |s.cards|);
    CardRowsGrounded(enriched.cards, quotes, score, ids, |s.cards|);
    var a := TextRows(KeyPrInsight, s.insights, quotes, score, ids, 0, |s.insights|);
    var b := TextRows(ReputationalRisk, s.risks, quotes, score, ids, |a|, |s.risks|);
    TextRowsGrounded(KeyPrInsight, s.insights, quotes, score, ids, 0, |s.insights|);
    TextRowsGrounded(ReputationalRisk, s.risks, quotes, score, ids, |a|, |s.risks|);
    TextRowsGrounded(RecommendedMessage, s.messages, quotes, score, ids, |a| + |b|, |s.messages|);
  }

  /** No fabricated quote: every emitted insight rests on 2 to 5 supplied quotes. */
  lemma NoFabricatedQuote(s: Strategy, quotes: seq<Quote>, score: Scoring, ids: IdStream, interviewCount: int)
    ensures var enriched := s.(cards := Enriched(s.cards, quotes, score, |s.cards|));
            var rows := Rows(enriched, quotes, score, ids);
            forall i :: i in Insights(rows, Max(1, interviewCount), |rows|) ==> Sound(i, quotes)
  {
    RowsGrounded(s, quotes, score, ids);
    var rows := Rows(s.(cards := Enriched(s.cards, quotes, score, |s.cards|)), quotes, score, ids);
    InsightsSound(rows, quotes, Max(1, interviewCount), |rows|);
  }

  // ----- nothing that is grounded is lost

  /** The first `limit` characters. */
  ghost predicate IsStart(r: string, s: string, limit: nat) {
    if |s| <= limit then r == s else r == s[..limit]
  }

  lemma {:induction false} PrefixedSize(prefix: string, ids: set<string>)
    ensures |Prefixed(prefix, ids)| == |ids|
    decreases ids
  {
    if ids == {} {
    } else {
      var id :| id in ids;
      PrefixedSize(prefix, ids - {id});
      forall other | other in ids - {id} ensures prefix + other != prefix + id {
        assert (prefix + other)[|prefix|..] == other && (prefix + id)[|prefix|..] == id;
      }
      assert Prefixed(prefix, ids) == Prefixed(prefix, ids - {id}) + {prefix + id};
    }
  }

  lemma PrefixedApart(p: string, q: string, a: set<string>, b: set<string>)
    requires p != "" && q != "" && p[0] != q[0]
    ensures Prefixed(p, a) !! Prefixed(q, b)
  {
    assert forall k :: k in Prefixed(p, a) ==> k[0] == p[0];
    assert forall k :: k in Prefixed(q, b) ==> k[0] == q[0];
  }

  /** Documents, audios and transcripts are counted once each. */
  lemma SourceCount(ev: seq<Item>)
    ensures |SourceKeys(ev)| == |DocumentIds(ev)| + |AudioIds(ev)| + |TranscriptIds(ev)|
  {
    hide Prefixed, DocumentIds, AudioIds, TranscriptIds;
    PrefixedSize("doc:", DocumentIds(ev));
    PrefixedSize("audio:", AudioIds(ev));
    PrefixedSize("tr:", TranscriptIds(ev));
    PrefixedApart("doc:", "audio:", DocumentIds(ev), AudioIds(ev));
    PrefixedApart("doc:", "tr:", DocumentIds(ev), TranscriptIds(ev));
    PrefixedApart("audio:", "tr:", AudioIds(ev), TranscriptIds(ev));
  }

  /** Any item of four characters or more is kept, with its first 900. */
  lemma ShapedExactly(ev: seq<Item>, n: nat)
    requires n < |ev|
    ensures Shaped(ev, 0) == []
    ensures |ev[n].quote| < 4 ==> Shaped(ev, n + 1) == Shaped(ev, n)
    ensures |ev[n].quote| >= 4 ==>
              && |Shaped(ev, n + 1)| == |Shaped(ev, n)| + 1 && Shaped(ev, n) <= Shaped(ev, n + 1)
              && var it := Shaped(ev, n + 1)[|Shaped(ev, n)|];
              it == ev[n].(quote := it.quote) && IsStart(it.quote, ev[n].quote, 900)
  {
  }

  /** Which rows give an insight: two items at first, visible text, and two items among the first five that are kept. */
  lemma InsightExactly(row: Row, interviews: nat)
    requires interviews >= 1
    ensures var one, kept := ShapedInsight(row, interviews), Shaped(row.evidence, Min(5, |row.evidence|));
            && (one.Some? <==> |row.evidence| >= 2 && Strip(row.insight) != "" && |kept| >= 2)
            && (one.Some? ==> one.value.evidence == kept && one.value.insightId == row.insightId
                              && IsStart(one.value.insight, Strip(row.insight), 2000))
  {
    hide Strip;
  }

  /** What an insight says about its row. */
  ghost predicate Tells(i: Insight, row: Row, interviews: nat)
    requires interviews >= 1
  {
    var sources := |DocumentIds(row.evidence)| + |AudioIds(row.evidence)| + |TranscriptIds(row.evidence)|;
    var exact := 100.0 * sources as real / interviews as real;
    && i.insightId == row.insightId && i.evidence == row.evidence && IsStart(i.insight, Strip(row.insight), 2000)
    && i.count == Max(|row.evidence|, sources)
    && if exact >= 100.0 then i.coverage == 100.0 else -0.05 <= i.coverage - exact <= 0.05
  }

  /** A grounded row with visible text gives an insight with exactly its evidence. */
  lemma GroundedRowIsTold(row: Row, quotes: seq<Quote>, interviews: nat)
    requires interviews >= 1 && Grounded(row, quotes) && Strip(row.insight) != ""
    ensures var one := ShapedInsight(row, interviews); one.Some? && Tells(one.value, row, interviews)
  {
    hide Strip, FromQuotes, SourceKeys, Coverage;
    ShapedKeepsAll(row.evidence, quotes, |row.evidence|);
    assert row.evidence[..|row.evidence|] == row.evidence;
    SourceCount(row.evidence);
  }

  /** The insights are the grounded rows, one for one and in order. */
  lemma {:induction false} InsightsAreRows(rows: seq<Row>, quotes: seq<Quote>, interviews: nat, n: nat)
    requires interviews >= 1 && n <= |rows|
    requires forall r :: r in rows ==> Grounded(r, quotes) && Strip(r.insight) != ""
    ensures |Insights(rows, interviews, n)| == n
    ensures forall i :: 0 <= i < n ==> Tells(Insights(rows, interviews, n)[i], rows[i], interviews)
  {
    hide Strip, Grounded, Tells, ShapedInsight;
    if n == 0 {
    } else {
      InsightsAreRows(rows, quotes, interviews, n - 1);
      assert rows[n - 1] in rows;
      GroundedRowIsTold(rows[n - 1], quotes, interviews);
    }
  }

  /** No evidence is lost: every row of the chain gives an insight with exactly its quotes, and nothing else does. */
  lemma NoEvidenceLost(s: Strategy, quotes: seq<Quote>, score: Scoring, ids: IdStream, interviewCount: int)
    ensures var rows := Rows(s.(cards := Enriched(s.cards, quotes, score, |s.cards|)), quotes, score, ids);
            var insights := Insights(rows, Max(1, interviewCount), |rows|);
            |insights| == |rows| && forall i :: 0 <= i < |rows| ==> Tells(insights[i], rows[i], Max(1, interviewCount))
  {
    RowsGrounded(s, quotes, score, ids);
    var rows := Rows(s.(cards := Enriched(s.cards, quotes, score, |s.cards|)), quotes, score, ids);
    InsightsAreRows(rows, quotes, Max(1, interviewCount), |rows|);
  }

  // ----- which texts give rows

  /**
   One more text adds a row exactly when it shows something and has two quotes; the row has its first
   2000 characters, its quotes and the next id.
   */
  lemma TextRowsExactly(kind: Kind, texts: seq<string>, quotes: seq<Quote>, score: Scoring, ids: IdStream, first: nat, n: nat)
    requires n < |texts|
    ensures TextRows(kind, texts, quotes, score, ids, first, 0) == []
    ensures var text := Strip(texts[n]);
            var evidence := Picked(text, quotes, score, 2, 5);
            var before := TextRows(kind, texts, quotes, score, ids, first, n);
            var after := TextRows(kind, texts, quotes, score, ids, first, n + 1);
            if text == "" || |evidence| < 2 then after == before
            else && |after| == |before| + 1 && after[..|before|] == before
                 && var row := after[|before|];
                 && row.insightId == ids(first + |before|) && row.kind == kind && IsStart(row.insight, text, 2000)
                 && row.evidence == evidence
  {
    hide Picked, Strip;
  }

  /** Which references of a card count: exactly those that show something, in order. */
  lemma {:induction false} VisibleRefsExactly(a: seq<Item>, b: seq<Item>, it: Item)
    ensures VisibleRefs([it]) == if Strip(it.quote) != "" then [it] else []
    ensures VisibleRefs(a + b) == VisibleRefs(a) + VisibleRefs(b)
    decreases |b|
  {
    hide Strip;
    assert [it][..0] == [];
    if b == [] {
      assert a + b == a;
    } else {
      assert (a + b)[..|a + b| - 1] == a + b[..|b| - 1];
      VisibleRefsExactly(a, b[..|b| - 1], it);
    }
  }

  /**
   One more card adds a row exactly when it has eight visible characters and two references that show
   something, or else two quotes; the row has the first five.
   */
  lemma CardRowsExactly(cards: seq<Card>, quotes: seq<Quote>, score: Scoring, ids: IdStream, n: nat)
    requires n < |cards|
    ensures var c := cards[n];
            var text := Strip(if c.message != "" then c.message else c.action);
            var refs := VisibleRefs(c.refs);
            var evidence := if |refs| >= 2 then refs else Picked(text, quotes, score, 2, 5);
            var before, after := CardRows(cards, quotes, score, ids, n), CardRows(cards, quotes, score, ids, n + 1);
            if |text| < 8 || |evidence| < 2 then after == before
            else && |after| == |before| + 1 && after[..|before|] == before
                 && var row := after[|before|];
                 && row.insightId == ids(|before|) && row.kind == ActionCard && IsStart(row.insight, text, 2000)
                 && row.evidence <= evidence && |row.evidence| == Min(5, |evidence|)
  {
    hide Picked, Strip, VisibleRefs;
  }

  /** The text has something visible and two quotes to rest on. */
  ghost predicate Groundable(text: string, quotes: seq<Quote>, score: Scoring) {
    Strip(text) != "" && |Picked(Strip(text), quotes, score, 2, 5)| >= 2
  }

  ghost predicate RowFor(row: Row, kind: Kind, text: string, quotes: seq<Quote>, score: Scoring) {
    row.kind == kind && IsStart(row.insight, Strip(text), 2000) && row.evidence == Picked(Strip(text), quotes, score, 2, 5)
  }

  /** A block has a row for each of its groundable texts, and no other. */
  ghost predicate BlockGrounded(rows: seq<Row>, kind: Kind, texts: seq<string>, quotes: seq<Quote>, score: Scoring) {
    && (forall text :: text in texts && Groundable(text, quotes, score) ==>
          exists row :: row in rows && RowFor(row, kind, text, quotes, score))
    && (forall row :: row in rows && row.kind == kind ==>
          exists text :: text in texts && Groundable(text, quotes, score) && RowFor(row, kind, text, quotes, score))
  }

  /** One more text: its row, if it gets one. */
  lemma NextTextRow(kind: Kind, texts: seq<string>, quotes: seq<Quote>, score: Scoring, ids: IdStream, first: nat, n: nat)
    returns (row: Row)
    requires n < |texts|
    ensures var before := TextRows(kind, texts, quotes, score, ids, first, n);
            var after := TextRows(kind, texts, quotes, score, ids, first, n + 1);
            if Groundable(texts[n], quotes, score)
            then after == before + [row] && row.kind == kind && RowFor(row, kind, texts[n], quotes, score)
            else after == before
  {
    TextRowsExactly(kind, texts, quotes, score, ids, first, n);
    var before := TextRows(kind, texts, quotes, score, ids, first, n);
    var after := TextRows(kind, texts, quotes, score, ids, first, n + 1);
    hide TextRows, Picked, Strip, IsStart;
    row := Row("", "", kind, []);
    if Groundable(texts[n], quotes, score) {
      row := after[|before|];
      assert after == after[..|before|] + [row];
    }
  }

  lemma NoRowsYet(kind: Kind, texts: seq<string>, quotes: seq<Quote>, score: Scoring, ids: IdStream, first: nat)
    ensures TextRows(kind, texts, quotes, score, ids, first, 0) == []
    ensures BlockGrounded([], kind, texts[..0], quotes, score)
  {
  }

  lemma PrefixSnoc<T>(s: seq<T>, n: nat)
    requires n < |s|
    ensures s[..n + 1] == s[..n] + [s[n]]
  {
  }

  lemma {:induction false} TextRowsOfBlock(kind: Kind, texts: seq<string>, quotes: seq<Quote>, score: Scoring,
                                           ids: IdStream, first: nat, n: nat)
    requires n <= |texts|
    ensures BlockGrounded(TextRows(kind, texts, quotes, score, ids, first, n), kind, texts[..n], quotes, score)
    ensures forall row :: row in TextRows(kind, texts, quotes, score, ids, first, n) ==> row.kind == kind
  {
    hide TextRows, Groundable, BlockGrounded, RowFor;
    if n == 0 {
      NoRowsYet(kind, texts, quotes, score, ids, first);
    } else {
      TextRowsOfBlock(kind, texts, quotes, score, ids, first, n - 1);
      PrefixSnoc(texts, n - 1);
      var before := TextRows(kind, texts, quotes, score, ids, first, n - 1);
      var row := NextTextRow(kind, texts, quotes, score, ids, first, n - 1);
      if Groundable(texts[n - 1], quotes, score) {
        BlockGrows(before, row, kind, texts[..n - 1], texts[n - 1], quotes, score);
      } else {
        BlockStays(before, kind, texts[..n - 1], texts[n - 1], quotes, score);
      }
    }
  }

  lemma BlockGrows(rows: seq<Row>, row: Row, kind: Kind, texts: seq<string>, text: string, quotes: seq<Quote>, score: Scoring)
    requires BlockGrounded(rows, kind, texts, quotes, score)
    requires Groundable(text, quotes, score) && RowFor(row, kind, text, quotes, score)
    ensures BlockGrounded(rows + [row], kind, texts + [text], quotes, score)
  {
    hide Groundable, RowFor;
    var more, all := rows + [row], texts + [text];
    forall t | t in all && Groundable(t, quotes, score) ensures exists r :: r in more && RowFor(r, kind, t, quotes, score) {
      if t == text {
        assert row in more;
      } else {
        var r :| r in rows && RowFor(r, kind, t, quotes, score);
        assert r in more;
      }
    }
    forall r | r in more && r.kind == kind
      ensures exists t :: t in all && Groundable(t, quotes, score) && RowFor(r, kind, t, quotes, score)
    {
      if r == row {
        assert text in all;
      } else {
        var t :| t in texts && Groundable(t, quotes, score) && RowFor(r, kind, t, quotes, score);
        assert t in all;
      }
    }
  }

  lemma BlockStays(rows: seq<Row>, kind: Kind, texts: seq<string>, text: string, quotes: seq<Quote>, score: Scoring)
    requires BlockGrounded(rows, kind, texts, quotes, score) && !Groundable(text, quotes, score)
    ensures BlockGrounded(rows, kind, texts + [text], quotes, score)
  {
    hide Groundable, RowFor;
    forall r | r in rows && r.kind == kind
      ensures exists t :: t in texts + [text] && Groundable(t, quotes, score) && RowFor(r, kind, t, quotes, score)
    {
      var t :| t in texts && Groundable(t, quotes, score) && RowFor(r, kind, t, quotes, score);
      assert t in texts + [text];
    }
  }

  /** Every groundable text has its row, and the cards stand in exactly when there is none. */
  lemma RowsOfBlocks(s: Strategy, quotes: seq<Quote>, score: Scoring, ids: IdStream)
    ensures var rows := Rows(s, quotes, score, ids);
            && BlockGrounded(rows, KeyPrInsight, s.insights, quotes, score)
            && BlockGrounded(rows, ReputationalRisk, s.risks, quotes, score)
            && BlockGrounded(rows, RecommendedMessage, s.messages, quotes, score)
            && (forall row :: row in rows ==>
                  (row.kind == ActionCard <==>
                   forall text :: text in s.insights || text in s.risks || text in s.messages ==>
                     !Groundable(text, quotes, score)))
  {
    var a := TextRows(KeyPrInsight, s.insights, quotes, score, ids, 0, |s.insights|);
    var b := TextRows(ReputationalRisk, s.risks, quotes, score, ids, |a|, |s.risks|);
    var c := TextRows(RecommendedMessage, s.messages, quotes, score, ids, |a| + |b|, |s.messages|);
    var cards := CardRows(s.cards, quotes, score, ids, |s.cards|);
    RowsAre(s, quotes, score, ids, a, b, c);
    hide Rows, TextRows, CardRows, BlockGrounded, Groundable;
    WholeBlock(KeyPrInsight, s.insights, quotes, score, ids, 0);
    WholeBlock(ReputationalRisk, s.risks, quotes, score, ids, |a|);
    WholeBlock(RecommendedMessage, s.messages, quotes, score, ids, |a| + |b|);
    if a == [] && b == [] && c == [] {
      CardRowsAreCards(s.cards, quotes, score, ids, |s.cards|);
      OnlyCards(cards, s, quotes, score);
    } else {
      ThreeBlocks(a, b, c, s, quotes, score);
    }
  }

  lemma RowsAre(s: Strategy, quotes: seq<Quote>, score: Scoring, ids: IdStream, a: seq<Row>, b: seq<Row>, c: seq<Row>)
    requires a == TextRows(KeyPrInsight, s.insights, quotes, score, ids, 0, |s.insights|)
    requires b == TextRows(ReputationalRisk, s.risks, quotes, score, ids, |a|, |s.risks|)
    requires c == TextRows(RecommendedMessage, s.messages, quotes, score, ids, |a| + |b|, |s.messages|)
    ensures Rows(s, quotes, score, ids) ==
            if a == [] && b == [] && c == [] then CardRows(s.cards, quotes, score, ids, |s.cards|) else a + b + c
  {
    hide TextRows, CardRows;
    assert |a + b + c| == |a| + |b| + |c|;
  }

  lemma OnlyCards(cards: seq<Row>, s: Strategy, quotes: seq<Quote>, score: Scoring)
    requires BlockGrounded([], KeyPrInsight, s.insights, quotes, score)
    requires BlockGrounded([], ReputationalRisk, s.risks, quotes, score)
    requires BlockGrounded([], RecommendedMessage, s.messages, quotes, score)
    requires forall row :: row in cards ==> row.kind == ActionCard
    ensures BlockGrounded(cards, KeyPrInsight, s.insights, quotes, score)
    ensures BlockGrounded(cards, ReputationalRisk, s.risks, quotes, score)
    ensures BlockGrounded(cards, RecommendedMessage, s.messages, quotes, score)
  {
    hide BlockGrounded;
    assert [] + [] + cards == cards;
    BlockAmong([], [], cards, KeyPrInsight, s.insights, quotes, score);
    BlockAmong([], [], cards, ReputationalRisk, s.risks, quotes, score);
    BlockAmong([], [], cards, RecommendedMessage, s.messages, quotes, score);
  }

  lemma ThreeBlocks(a: seq<Row>, b: seq<Row>, c: seq<Row>, s: Strategy, quotes: seq<Quote>, score: Scoring)
    requires BlockGrounded(a, KeyPrInsight, s.insights, quotes, score) && forall row :: row in a ==> row.kind == KeyPrInsight
    requires BlockGrounded(b, ReputationalRisk, s.risks, quotes, score) && forall row :: row in b ==> row.kind == ReputationalRisk
    requires BlockGrounded(c, RecommendedMessage, s.messages, quotes, score) && forall row :: row in c ==> row.kind == RecommendedMessage
    ensures BlockGrounded(a + b + c, KeyPrInsight, s.insights, quotes, score)
    ensures BlockGrounded(a + b + c, ReputationalRisk, s.risks, quotes, score)
    ensures BlockGrounded(a + b + c, RecommendedMessage, s.messages, quotes, score)
    ensures forall row :: row in a + b + c ==> row.kind != ActionCard
  {
    hide BlockGrounded;
    BlockAmong([], a, b + c, KeyPrInsight, s.insights, quotes, score);
    BlockAmong(a, b, c, ReputationalRisk, s.risks, quotes, score);
    BlockAmong(a + b, c, [], RecommendedMessage, s.messages, quotes, score);
    assert [] + a + (b + c) == a + b + c && a + b + c + [] == a + b + c;
  }

  lemma WholeBlock(kind: Kind, texts: seq<string>, quotes: seq<Quote>, score: Scoring, ids: IdStream, first: nat)
    ensures var rows := TextRows(kind, texts, quotes, score, ids, first, |texts|);
            && BlockGrounded(rows, kind, texts, quotes, score) && (forall row :: row in rows ==> row.kind == kind)
            && (rows == [] <==> forall text :: text in texts ==> !Groundable(text, quotes, score))
  {
    TextRowsOfBlock(kind, texts, quotes, score, ids, first, |texts|);
    hide TextRows, Groundable, RowFor;
    assert texts[..|texts|] == texts;
    var rows := TextRows(kind, texts, quotes, score, ids, first, |texts|);
    if rows != [] {
      assert rows[0] in rows;
    }
  }

  /** Rows of other kinds around a block change nothing. */
  lemma BlockAmong(before: seq<Row>, rows: seq<Row>, after: seq<Row>, kind: Kind, texts: seq<string>,
                   quotes: seq<Quote>, score: Scoring)
    requires BlockGrounded(rows, kind, texts, quotes, score)
    requires forall row :: row in before || row in after ==> row.kind != kind
    ensures BlockGrounded(before + rows + after, kind, texts, quotes, score)
  {
    hide Groundable, RowFor;
    var all := before + rows + after;
    assert forall row :: row in all <==> row in before || row in rows || row in after;
    forall t | t in texts && Groundable(t, quotes, score) ensures exists r :: r in all && RowFor(r, kind, t, quotes, score) {
      var r :| r in rows && RowFor(r, kind, t, quotes, score);
      assert r in all;
    }
  }

  lemma {:induction false} CardRowsAreCards(cards: seq<Card>, quotes: seq<Quote>, score: Scoring, ids: IdStream, n: nat)
    requires n <= |cards|
    ensures forall row :: row in CardRows(cards, quotes, score, ids, n) ==> row.kind == ActionCard
  {
    hide Picked, Strip, VisibleRefs;
    if n == 0 {
    } else {
      CardRowsAreCards(cards, quotes, score, ids, n - 1);
    }
  }

  // ----- which insights a card is linked to

  ghost predicate SharesEntity(c: Card, i: Insight) {
    exists ref, it :: ref in c.refs && it in i.evidence && ref.entityId == it.entityId != ""
  }

  lemma SharesExactly(c: Card, i: Insight)
    ensures Shares(c, i) <==> SharesEntity(c, i)
  {
    if it :| it in i.evidence && it.entityId in EntityIds(c.refs) {
      var ref :| ref in c.refs && ref.entityId != "" && ref.entityId == it.entityId;
    }
    if ref, it :| ref in c.refs && it in i.evidence && ref.entityId == it.entityId != "" {
      assert it.entityId in EntityIds(c.refs);
    }
  }

  /** Linked to exactly the first five of the named insights that share an entity, in their order. */
  lemma {:induction false} LinkedExactly(c: Card, insights: seq<Insight>, n: nat) returns (ats: seq<nat>)
    requires n <= |insights|
    ensures |ats| == |Linked(c, insights, n)| <= 5
    ensures forall k :: 0 <= k < |ats| ==>
              && ats[k] < n && Linked(c, insights, n)[k] == insights[ats[k]].insightId != ""
              && SharesEntity(c, insights[ats[k]])
    ensures forall k, m :: 0 <= k < m < |ats| ==> ats[k] < ats[m]
    ensures forall i :: 0 <= i < n && i !in ats && insights[i].insightId != "" && SharesEntity(c, insights[i]) ==>
              |ats| == 5 && forall k :: k in ats ==> k < i
  {
    hide SharesEntity, Shares;
    ats := [];
    if n > 0 {
      var last := insights[n - 1];
      ats := LinkedExactly(c, insights, n - 1);
      SharesExactly(c, last);
      if |ats| < 5 && last.insightId != "" && SharesEntity(c, last) {
        ats := ats + [n - 1];
      }
    }
  }

  predicate NumberedFrom(rows: seq<Row>, ids: IdStream, before: nat) {
    forall i :: 0 <= i < |rows| ==> rows[i].insightId == ids(before + i)
  }

  lemma NumberedAppend(rows: seq<Row>, more: seq<Row>, ids: IdStream, before: nat)
    requires NumberedFrom(rows, ids, before) && NumberedFrom(more, ids, before + |rows|)
    ensures NumberedFrom(rows + more, ids, before)
  {
  }

  lemma {:induction false} TextRowIds(kind: Kind, texts: seq<string>, quotes: seq<Quote>, score: Scoring,
                                      ids: IdStream, before: nat, n: nat)
    requires n <= |texts|
    ensures NumberedFrom(TextRows(kind, texts, quotes, score, ids, before, n), ids, before)
  {
    hide Picked, Strip, Clip, NumberedFrom;
    if n == 0 {
      NumberedOne([], ids, before);
    } else {
      TextRowIds(kind, texts, quotes, score, ids, before, n - 1);
      var rows := TextRows(kind, texts, quotes, score, ids, before, n - 1);
      var all := TextRows(kind, texts, quotes, score, ids, before, n);
      NumberedOne(all[|rows|..], ids, before + |rows|);
      NumberedAppend(rows, all[|rows|..], ids, before);
      assert all == rows + all[|rows|..];
    }
  }

  lemma NumberedOne(rows: seq<Row>, ids: IdStream, before: nat)
    requires |rows| <= 1 && (rows != [] ==> rows[0].insightId == ids(before))
    ensures NumberedFrom(rows, ids, before)
  {
  }

  lemma {:induction false} CardRowIds(cards: seq<Card>, quotes: seq<Quote>, score: Scoring, ids: IdStream, n: nat)
    requires n <= |cards|
    ensures NumberedFrom(CardRows(cards, quotes, score, ids, n), ids, 0)
  {
    hide Picked, Strip, Clip, CardText, CardEvidence, NumberedFrom;
    if n == 0 {
      NumberedOne([], ids, 0);
    } else {
      CardRowIds(cards, quotes, score, ids, n - 1);
      var rows := CardRows(cards, quotes, score, ids, n - 1);
      var all := CardRows(cards, quotes, score, ids, n);
      NumberedOne(all[|rows|..], ids, |rows|);
      NumberedAppend(rows, all[|rows|..], ids, 0);
      assert all == rows + all[|rows|..];
    }
  }

  predicate Names(rows: seq<Row>, n: nat, id: string)
    requires n <= |rows|
  {
    exists k :: 0 <= k < n && rows[k].insightId == id
  }

  predicate UniqueIds(ins: seq<Insight>) {
    forall i, j :: 0 <= i < j < |ins| ==> ins[i].insightId != ins[j].insightId
  }

  lemma {:induction false} InsightIds(rows: seq<Row>, interviews: nat, n: nat)
    requires interviews >= 1 && n <= |rows|
    requires forall i, j :: 0 <= i < j < |rows| ==> rows[i].insightId != rows[j].insightId
    ensures forall x :: x in Insights(rows, interviews, n) ==> Names(rows, n, x.insightId)
    ensures UniqueIds(Insights(rows, interviews, n))
  {
    hide ShapedInsight;
    if n == 0 {
    } else {
      InsightIds(rows, interviews, n - 1);
      var before, one := Insights(rows, interviews, n - 1), ShapedInsight(rows[n - 1], interviews);
      assert forall x :: x in before ==> Names(rows, n - 1, x.insightId) && x.insightId != rows[n - 1].insightId;
      assert one.Some? ==> one.value.insightId == rows[n - 1].insightId by { ShapedKeepsId(rows[n - 1], interviews); }
      assert Insights(rows, interviews, n) == before + if one.Some? then [one.value] else [];
    }
  }

  lemma ShapedKeepsId(row: Row, interviews: nat)
    requires interviews >= 1
    ensures var one := ShapedInsight(row, interviews); one.Some? ==> one.value.insightId == row.insightId
  {
  }

  /** With fresh ids, an id in `based_on` names one insight and no other. */
  lemma InsightIdsAreUnique(s: Strategy, quotes: seq<Quote>, score: Scoring, ids: IdStream, interviewCount: int)
    requires forall i, j :: 0 <= i < j ==> ids(i) != ids(j)
    ensures var rows := Rows(s, quotes, score, ids); UniqueIds(Insights(rows, Max(1, interviewCount), |rows|))
  {
    hide TextRows, CardRows;
    var rows := Rows(s, quotes, score, ids);
    var a := TextRows(KeyPrInsight, s.insights, quotes, score, ids, 0, |s.insights|);
    var b := TextRows(ReputationalRisk, s.risks, quotes, score, ids, |a|, |s.risks|);
    var c := TextRows(RecommendedMessage, s.messages, quotes, score, ids, |a| + |b|, |s.messages|);
    TextRowIds(KeyPrInsight, s.insights, quotes, score, ids, 0, |s.insights|);
    TextRowIds(ReputationalRisk, s.risks, quotes, score, ids, |a|, |s.risks|);
    TextRowIds(RecommendedMessage, s.messages, quotes, score, ids, |a| + |b|, |s.messages|);
    NumberedAppend(a, b, ids, 0);
    NumberedAppend(a + b, c, ids, 0);
    CardRowIds(s.cards, quotes, score, ids, |s.cards|);
    assert NumberedFrom(rows, ids, 0);
    forall i, j | 0 <= i < j < |rows| ensures rows[i].insightId != rows[j].insightId {
      assert ids(0 + i) != ids(0 + j);
    }
    InsightIds(rows, Max(1, interviewCount), |rows|);
  }
}
