/** From the detectors through `collectSpans` and the maskers to `Demask`. */
module EndToEnd {
  import opened Common
  import opened Spans
  import opened Names
  import opened Collect
  import opened Coverage
  import opened Replacer
  import opened Tokens
  import opened Weaving
  import opened Maskers
  import opened RoundTrips

  /** No detector's type name contains a square bracket. */
  ghost predicate DetectorsBracketFree(e: Engine) {
    forall i :: 0 <= i < |e.detectors| ==> BracketFree(e.detectors[i].typ)
  }

  lemma {:induction false} DetectorSpansBracketFree(ds: seq<Detector>, input: string, allowed: Option<set<string>>)
    requires forall i :: 0 <= i < |ds| ==> BracketFree(ds[i].typ)
    ensures TypesBracketFree(DetectorSpans(ds, input, allowed))
  {
    hide BracketFree;
    if ds != [] {
      DetectorSpansBracketFree(ds[1..], input, allowed);
    }
  }

  lemma FixedTypesBracketFree()
    ensures BracketFree("CARD") && BracketFree("CARD_EXP") && BracketFree("FIO")
  {
  }

  lemma CandidateBracketFree(e: Engine, input: string, allowed: Option<set<string>>, s: Span)
    requires Sound(e, input) && DetectorsBracketFree(e) && s in Candidates(e, input, allowed)
    ensures BracketFree(s.typ)
  {
    hide BracketFree, Candidates;
    InCandidates(e, input, allowed, s);
    DetectorSpansBracketFree(e.detectors, input, allowed);
    FixedTypesBracketFree();
    if Allow(allowed, "FIO") && s in FioSpans(e, input) {
      ScanTypes(e.lexicon, input, s);
    }
  }

  /** The types of the merged spans come from the detectors. */
  lemma MergedBracketFree(e: Engine, input: string, allowed: Option<set<string>>, spans: seq<Span>)
    requires Sound(e, input) && DetectorsBracketFree(e)
    requires NormalFormOf(spans, Kept(e, input, allowed)) && Within(spans, |input|)
    ensures Fits(spans, |input|) && TypesBracketFree(spans)
  {
    hide BracketFree, Kept, Candidates;
    forall s | s in spans ensures BracketFree(s.typ) {
      assert TypedByWidest(s, Kept(e, input, allowed));
      var h :| h in Kept(e, input, allowed) && h.typ == s.typ;
      InKept(e, input, allowed, h);
      CandidateBracketFree(e, input, allowed, h);
    }
  }

  /**
   For any detectors, any text and any choice the sort may make: what `Mask` returns is
   restored by `Demask` unless an issued placeholder occurs in the unmasked text, and a
   reply made of free text and issued placeholders demasks part by part.
   */
  lemma MaskDemask(e: Engine, input: string, allowed: Option<set<string>>, spans: seq<Span>, reply: seq<Part>)
    requires Sound(e, input) && DetectorsBracketFree(e)
    requires NormalFormOf(spans, Kept(e, input, allowed)) && Within(spans, |input|)
    ensures Fits(spans, |input|)
    ensures GapsTokenFree(TokenMapping(input, spans), TokenPieces(input, spans), Tail(input, spans)) ==>
      Replace(TokenMapping(input, spans), TokenMasked(input, spans)) == input
    ensures IsReply(TokenMapping(input, spans), reply) ==>
      Replace(TokenMapping(input, spans), Rendered(reply)) == Expanded(TokenMapping(input, spans), reply)
  {
    hide Kept, NormalFormOf, GapsTokenFree, IsReply;
    MergedBracketFree(e, input, allowed, spans);
    if GapsTokenFree(TokenMapping(input, spans), TokenPieces(input, spans), Tail(input, spans)) {
      TokenRoundTrip(input, spans);
    }
    if IsReply(TokenMapping(input, spans), reply) {
      TokenPiecesCut(input, spans);
      TokenMapFacts(TokenPieces(input, spans));
      ReplyExpands(TokenMapping(input, spans), reply);
    }
  }

  /** Position `p` lies in a masked span and is written as masked text. */
  ghost predicate StarredAt(input: string, spans: seq<Span>, p: nat)
    requires Fits(spans, |input|) && p < |input|
  {
    && |StarMasked(input, spans)| == |input|
    && exists s :: s in spans && s.start <= p < s.end
         && StarMasked(input, spans)[p] == (if Survives(input[p], p - s.start, s.end - s.start) then input[p] else '*')
  }

  /** A masked position is written as masked text. */
  lemma CoveredIsStarred(input: string, spans: seq<Span>, p: nat)
    requires Fits(spans, |input|) && p < |input| && Covers(spans, p)
    ensures StarredAt(input, spans, p)
  {
    hide StarMasked, Survives;
    AsterisksPositionwise(input, spans, p);
  }

  /**
   A patronymic never shows: whenever names are allowed, every position of such a word lies
   in a masked span, and there `MaskAsterisks` writes what it writes for masked text.
   */
  lemma PatronymicStarred(
    e: Engine, input: string, allowed: Option<set<string>>, spans: seq<Span>, k: nat, p: nat)
    requires Sound(e, input) && Allow(allowed, "FIO")
    requires NormalFormOf(spans, Kept(e, input, allowed)) && Fits(spans, |input|) && p < |input|
    requires var ws := AllWords(e.lexicon, input);
      && k < |ws| && IsPatronymic(ws[k].low) && ws[k].low !in e.lexicon.stopTokens
      && ws[k].start <= p < ws[k].end
    ensures StarredAt(input, spans, p)
  {
    hide Kept, IsPatronymic, StarredAt;
    PatronymicMasked(e, input, allowed, spans, k, p);
    CoveredIsStarred(input, spans, p);
  }
}
