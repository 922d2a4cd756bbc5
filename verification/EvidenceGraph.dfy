/** The sources, evidence, claims and citations of a research result, as the
    adapter builds them: linked lists of records that refer to each other by id
    and are grown, cleared and re-verified in place. An id is the number in its
    record's name; a passage carries the word set and the negation flag that the
    text matching sees in it. */
module EvidenceGraph {
  import opened Keyspace

  const MIN_CLAIM_CHARS := 24
  const MAX_EVIDENCE: nat := 12
  const MAX_CLAIMS: nat := 10
  const MAX_INFERRED: nat := 8

  datatype Passage = Passage(text: string, words: set<string>, negated: bool)

  /** A text as its sentences, and as one compacted passage for when no sentence
      is long enough. */
  datatype Text = Text(sentences: seq<Passage>, compact: Passage)

  datatype Status = Unsupported | Conflicting | PartiallySupported | Supported | Inferred

  /** A web address; local inputs, and some passage records, have none. */
  datatype Address = NoAddress | Web(url: string)

  datatype Source = Source(id: nat, url: Address)

  datatype Evidence = Evidence(id: nat, sourceId: nat, passage: Passage)

  datatype Claim = Claim(id: nat, text: Passage, evidenceIds: seq<nat>, confidence: real, status: Status)

  datatype Citation = Citation(id: nat, sourceId: nat, evidenceIds: seq<nat>, claimIds: seq<nat>)

  datatype Record = Record(url: Address, text: Text)

  function Substantive(sentences: seq<Passage>): seq<Passage> {
    if sentences == [] then []
    else (if |sentences[0].text| >= MIN_CLAIM_CHARS then [sentences[0]] else []) + Substantive(sentences[1..])
  }

  /** Substantive sentences are exactly those of 24 characters or more, in order:
      a sentence that is dropped leaves the rest as it was. */
  lemma {:induction false} SubstantiveAreLong(a: seq<Passage>, s: Passage, b: seq<Passage>)
    ensures Substantive(a + [s] + b) == Substantive(a) + (if |s.text| >= 24 then [s] else []) + Substantive(b)
    ensures Substantive([]) == []
  {
    var all := a + [s] + b;
    if a == [] {
      assert all[0] == s && all[1..] == b;
    } else {
      assert all[0] == a[0] && all[1..] == a[1..] + [s] + b;
      SubstantiveAreLong(a[1..], s, b);
      assert Substantive(all) == (if |a[0].text| >= 24 then [a[0]] else []) + Substantive(a[1..] + [s] + b);
    }
  }

  function Take<T>(s: seq<T>, n: nat): seq<T> { s[..Min(n, |s|)] }

  function SelectPassages(t: Text, maximum: nat): seq<Passage> {
    if Substantive(t.sentences) != [] then Take(Substantive(t.sentences), maximum)
    else if t.compact.text != "" then [t.compact]
    else []
  }

  /** The source a passage record is attributed to: the last one with its
      address, or the only one there is when the record has no address. */
  function Attribution(sources: seq<Source>, url: Address): (r: Option<nat>)
    ensures r.Some? ==> r.value < |sources| && (sources[r.value].url == url || (|sources| == 1 && url == NoAddress))
    ensures r.None? ==> forall i :: 0 <= i < |sources| ==> sources[i].url != url
  {
    if exists i :: 0 <= i < |sources| && sources[i].url == url then Some(LastWith(sources, url))
    else if |sources| == 1 && url == NoAddress then Some(0)
    else None
  }

  function LastWith(sources: seq<Source>, url: Address): (i: nat)
    requires exists i :: 0 <= i < |sources| && sources[i].url == url
    ensures i < |sources| && sources[i].url == url
    ensures forall k :: i < k < |sources| ==> sources[k].url != url
  {
    var last := |sources| - 1;
    if sources[last].url == url then last else LastWith(sources[..last], url)
  }

  predicate Seen(evidence: seq<Evidence>, text: string) {
    exists k :: 0 <= k < |evidence| && evidence[k].passage.text == text
  }

  /** Evidence with the passages of one source appended, each text once, up to the
      limit. */
  function Gather(evidence: seq<Evidence>, source: nat, passages: seq<Passage>): seq<Evidence> {
    if passages == [] then evidence
    else
      var last := |passages| - 1;
      var before := Gather(evidence, source, passages[..last]);
      if |before| >= MAX_EVIDENCE || Seen(before, passages[last].text) then before
      else before + [Evidence(|before|, source, passages[last])]
  }

  /** The evidence of all attributable records, in order. */
  function GatherAll(sources: seq<Source>, records: seq<Record>): seq<Evidence> {
    if records == [] then []
    else
      var last := |records| - 1;
      var before := GatherAll(sources, records[..last]);
      match Attribution(sources, records[last].url)
      case None => before
      case Some(source) => Gather(before, source, SelectPassages(records[last].text, 3))
  }

  /** Passages of an attributable record. */
  predicate Offers(sources: seq<Source>, r: Record, source: nat, p: Passage) {
    Attribution(sources, r.url) == Some(source) && p in SelectPassages(r.text, 3)
  }

  ghost predicate Distinct(evidence: seq<Evidence>) {
    && |evidence| <= MAX_EVIDENCE
    && forall j, k :: 0 <= j < k < |evidence| ==> evidence[j].passage.text != evidence[k].passage.text
  }

  lemma SeenMore(a: seq<Evidence>, b: seq<Evidence>)
    requires a <= b
    ensures forall text :: Seen(a, text) ==> Seen(b, text)
  {
    forall text | Seen(a, text) ensures Seen(b, text) {
      var k :| 0 <= k < |a| && a[k].passage.text == text;
      assert b[k].passage.text == text;
    }
  }

  lemma SeenOneMore(evidence: seq<Evidence>, next: Evidence)
    ensures forall text :: Seen(evidence + [next], text) <==> Seen(evidence, text) || text == next.passage.text
  {
    SeenMore(evidence, evidence + [next]);
    assert (evidence + [next])[|evidence|] == next;
  }

  lemma {:induction false} GatheredOnce(evidence: seq<Evidence>, source: nat, passages: seq<Passage>)
    requires Distinct(evidence)
    ensures var all := Gather(evidence, source, passages);
            && Distinct(all) && evidence <= all
            && (forall k :: |evidence| <= k < |all| ==> all[k].sourceId == source && all[k].passage in passages)
            && (|all| < MAX_EVIDENCE ==> forall i :: 0 <= i < |passages| ==> Seen(all, passages[i].text))
    decreases |passages|
  {
    if passages != [] {
      var last := |passages| - 1;
      var before, all := Gather(evidence, source, passages[..last]), Gather(evidence, source, passages);
      GatheredOnce(evidence, source, passages[..last]);
      SeenMore(before, all);
      if |all| < MAX_EVIDENCE {
        if |all| > |before| { assert all[|before|].passage == passages[last]; }
        forall i | 0 <= i < |passages| ensures Seen(all, passages[i].text) {
          if i < last { assert Seen(before, passages[..last][i].text); }
        }
      }
    }
  }

  /** Every piece of evidence is a selected passage of a record attributed to its
      source. */
  ghost predicate AllOffered(evidence: seq<Evidence>, sources: seq<Source>, records: seq<Record>) {
    forall k :: 0 <= k < |evidence| ==> Offered(evidence[k], sources, records)
  }

  ghost predicate Offered(e: Evidence, sources: seq<Source>, records: seq<Record>) {
    exists r :: 0 <= r < |records| && Offers(sources, records[r], e.sourceId, e.passage)
  }

  /** Below the limit no text of an attributable record is missing. */
  ghost predicate NoneMissing(evidence: seq<Evidence>, sources: seq<Source>, records: seq<Record>) {
    |evidence| < MAX_EVIDENCE ==>
      forall r, s, p :: 0 <= r < |records| && Offers(sources, records[r], s, p) ==> Seen(evidence, p.text)
  }

  /** What the records yield: their passages only, no text twice, and none missing
      below the limit. */
  lemma {:induction false} GatheredFromRecords(sources: seq<Source>, records: seq<Record>)
    ensures var all := GatherAll(sources, records);
            Distinct(all) && AllOffered(all, sources, records) && NoneMissing(all, sources, records)
    decreases |records|
  {
    if records != [] {
      var last := |records| - 1;
      GatheredFromRecords(sources, records[..last]);
      var before, source := GatherAll(sources, records[..last]), Attribution(sources, records[last].url);
      if source.Some? { GatheredOnce(before, source.value, SelectPassages(records[last].text, 3)); }
      OfferedLater(before, GatherAll(sources, records), sources, records);
      MissingLater(before, GatherAll(sources, records), sources, records, records[last]);
    }
  }

  lemma OfferedLater(before: seq<Evidence>, all: seq<Evidence>, sources: seq<Source>, records: seq<Record>)
    requires records != [] && before <= all && AllOffered(before, sources, records[..|records| - 1])
    requires forall k :: |before| <= k < |all| ==> Offers(sources, records[|records| - 1], all[k].sourceId, all[k].passage)
    ensures AllOffered(all, sources, records)
  {
    var last := |records| - 1;
    forall k | 0 <= k < |all| ensures Offered(all[k], sources, records) {
      if k < |before| {
        assert Offered(before[k], sources, records[..last]);
        var r :| 0 <= r < last && Offers(sources, records[..last][r], before[k].sourceId, before[k].passage);
        assert Offers(sources, records[r], all[k].sourceId, all[k].passage);
      } else {
        assert Offers(sources, records[last], all[k].sourceId, all[k].passage);
      }
    }
  }

  lemma MissingLater(before: seq<Evidence>, all: seq<Evidence>, sources: seq<Source>, records: seq<Record>, newest: Record)
    requires records != [] && newest == records[|records| - 1]
    requires before <= all && NoneMissing(before, sources, records[..|records| - 1])
    requires |all| < MAX_EVIDENCE ==>
               forall s, p :: Offers(sources, newest, s, p) ==> Seen(all, p.text)
    ensures NoneMissing(all, sources, records)
  {
    var last := |records| - 1;
    SeenMore(before, all);
    forall r, s, p | |all| < MAX_EVIDENCE && 0 <= r < |records| && Offers(sources, records[r], s, p) ensures Seen(all, p.text) {
      if r < last { assert Offers(sources, records[..last][r], s, p); }
    }
  }

  lemma GatherNext(evidence: seq<Evidence>, source: nat, passages: seq<Passage>, n: nat)
    requires n < |passages|
    ensures var before := Gather(evidence, source, passages[..n]);
            Gather(evidence, source, passages[..n + 1])
            == if |before| >= MAX_EVIDENCE || Seen(before, passages[n].text) then before
               else before + [Evidence(|before|, source, passages[n])]
  {
    assert passages[..n + 1][..n] == passages[..n];
  }

  /** A full collection takes nothing more. */
  lemma {:induction false} FullStays(evidence: seq<Evidence>, source: nat, passages: seq<Passage>, n: nat)
    requires n <= |passages| && (n < |passages| ==> |Gather(evidence, source, passages[..n])| >= MAX_EVIDENCE)
    ensures Gather(evidence, source, passages) == Gather(evidence, source, passages[..n])
    decreases |passages| - n
  {
    if n == |passages| {
      assert passages[..n] == passages;
    } else {
      GatherNext(evidence, source, passages, n);
      FullStays(evidence, source, passages, n + 1);
    }
  }

  lemma {:induction false} AllFullStays(sources: seq<Source>, records: seq<Record>, n: nat)
    requires n <= |records| && (n < |records| ==> |GatherAll(sources, records[..n])| >= MAX_EVIDENCE)
    ensures GatherAll(sources, records) == GatherAll(sources, records[..n])
    decreases |records| - n
  {
    if n == |records| {
      assert records[..n] == records;
    } else {
      assert records[..n + 1][..n] == records[..n];
      var source := Attribution(sources, records[n].url);
      if source.Some? {
        FullStays(GatherAll(sources, records[..n]), source.value, SelectPassages(records[n].text, 3), 0);
      }
      AllFullStays(sources, records, n + 1);
    }
  }

  /** Evidence with all the passages of one source appended. */
  function Append(evidence: seq<Evidence>, source: nat, passages: seq<Passage>): seq<Evidence> {
    if passages == [] then evidence
    else
      var last := |passages| - 1;
      var before := Append(evidence, source, passages[..last]);
      before + [Evidence(|before|, source, passages[last])]
  }

  /** What local inputs bring: at most two passages of each, under a new source
      for each, numbered from `source`. */
  function WithInputs(evidence: seq<Evidence>, source: nat, chunks: seq<Text>): seq<Evidence> {
    if chunks == [] then evidence
    else
      var last := |chunks| - 1;
      Append(WithInputs(evidence, source, chunks[..last]), source + last, SelectPassages(chunks[last], 2))
  }

  /** The addresses among raw ones that passed the filters. */
  function Usable(raw: seq<(Address, bool)>): seq<Address> {
    if raw == [] then []
    else
      var last := |raw| - 1;
      Usable(raw[..last]) + if raw[last].1 then [raw[last].0] else []
  }

  lemma {:induction false} UsablePrefix(raw: seq<(Address, bool)>, n: nat)
    requires n <= |raw|
    ensures Usable(raw[..n]) <= Usable(raw)
    decreases |raw|
  {
    if n == |raw| {
      assert raw[..n] == raw;
    } else {
      UsablePrefix(raw[..|raw| - 1], n);
      assert raw[..|raw| - 1][..n] == raw[..n];
    }
  }

  function Listed(urls: seq<Address>): seq<Source> {
    seq(|urls|, i requires 0 <= i < |urls| => Source(i, urls[i]))
  }

  /** What a text offers: its first substantive sentences; without one, the
      compacted text if there is any. */
  lemma SelectedPassages(t: Text, maximum: nat)
    ensures var all, some := Substantive(t.sentences), SelectPassages(t, maximum);
            && (all != [] ==> some <= all && |some| == Min(maximum, |all|))
            && (all == [] ==> some == if t.compact.text == "" then [] else [t.compact])
  {
  }

  /** Appending all passages gives each the next number and the source. */
  lemma {:induction false} AppendedAll(evidence: seq<Evidence>, source: nat, passages: seq<Passage>)
    ensures var all := Append(evidence, source, passages);
            && evidence <= all && |all| == |evidence| + |passages|
            && (forall k :: 0 <= k < |passages| ==> all[|evidence| + k] == Evidence(|evidence| + k, source, passages[k]))
    decreases |passages|
  {
    if passages != [] { AppendedAll(evidence, source, passages[..|passages| - 1]); }
  }

  /** Local inputs add the evidence of each chunk behind that of those before. */
  lemma {:induction false} InputsAddAll(evidence: seq<Evidence>, source: nat, chunks: seq<Text>, i: nat)
    requires i < |chunks|
    ensures Append(WithInputs(evidence, source, chunks[..i]), source + i, SelectPassages(chunks[i], 2))
            <= WithInputs(evidence, source, chunks)
    decreases |chunks|
  {
    var last := |chunks| - 1;
    if i < last {
      assert chunks[..last][..i] == chunks[..i];
      InputsAddAll(evidence, source, chunks[..last], i);
      OneInputAdds(evidence, source, chunks);
    }
  }

  lemma OneInputAdds(evidence: seq<Evidence>, source: nat, chunks: seq<Text>)
    requires chunks != []
    ensures WithInputs(evidence, source, chunks[..|chunks| - 1]) <= WithInputs(evidence, source, chunks)
  {
    var last := |chunks| - 1;
    AppendedAll(WithInputs(evidence, source, chunks[..last]), source + last, SelectPassages(chunks[last], 2));
  }

  lemma {:induction false} InputsKeep(evidence: seq<Evidence>, source: nat, chunks: seq<Text>)
    ensures evidence <= WithInputs(evidence, source, chunks)
    decreases |chunks|
  {
    if chunks != [] {
      InputsKeep(evidence, source, chunks[..|chunks| - 1]);
      OneInputAdds(evidence, source, chunks);
    }
  }

  /** Exactly the addresses that passed the filters are usable, in order. */
  lemma {:induction false} UsableArePassed(raw: seq<(Address, bool)>, next: (Address, bool))
    ensures Usable(raw + [next]) == Usable(raw) + (if next.1 then [next.0] else []) && Usable([]) == []
  {
    assert (raw + [next])[..|raw|] == raw;
  }

  // ----- Matching a claim with a passage -----

  function Score(claim: Passage, passage: Passage): real {
    if claim.words == {} then 0.0
    else |claim.words * passage.words| as real / |claim.words| as real
  }

  function StatusFor(claim: Passage, passage: Passage, score: real): Status {
    if score < 0.35 then Unsupported
    else if claim.negated != passage.negated && score >= 0.55 then Conflicting
    else if score >= 0.72 then Supported
    else PartiallySupported
  }

  lemma {:induction false} SmallerSet<T>(a: set<T>, b: set<T>)
    requires a <= b
    ensures |a| <= |b| && (|a| == |b| ==> a == b)
  {
    if a != {} {
      var x :| x in a;
      SmallerSet(a - {x}, b - {x});
    }
  }

  /** The score is the share of the claim's words that the passage has: one exactly
      when it has them all, zero exactly when it has none, and never less for a
      passage with more words. */
  lemma ScoreIsShare(claim: Passage, passage: Passage, longer: Passage)
    requires passage.words <= longer.words
    ensures claim.words != {} ==> (Score(claim, passage) == 1.0 <==> claim.words <= passage.words)
    ensures Score(claim, passage) == 0.0 <==> claim.words !! passage.words
    ensures 0.0 <= Score(claim, passage) <= Score(claim, longer) <= 1.0
    ensures Score(claim, passage) * |claim.words| as real == |claim.words * passage.words| as real
  {
    var shared, more := claim.words * passage.words, claim.words * longer.words;
    SmallerSet(shared, more);
    SmallerSet(more, claim.words);
    SmallerSet(shared, claim.words);
    if claim.words != {} {
      assert claim.words <= passage.words ==> shared == claim.words;
      ShareBounds(|shared|, |more|, |claim.words|);
      assert shared == {} <==> |shared| == 0;
    } else {
      assert shared == {};
    }
  }

  lemma ShareBounds(a: nat, b: nat, n: nat)
    requires a <= b <= n && 0 < n
    ensures 0.0 <= a as real / n as real <= b as real / n as real <= 1.0
    ensures (a as real / n as real == 1.0 <==> a == n) && (a as real / n as real == 0.0 <==> a == 0)
    ensures (a as real / n as real) * n as real == a as real
  {
    var x, y, m := a as real, b as real, n as real;
    var p := Quotient(x, m);
    var q := Quotient(y, m);
    NonNegative(p, m);
    NonNegative(q - p, m);
    NonNegative(1.0 - q, m);
  }

  lemma Quotient(x: real, m: real) returns (q: real)
    requires 0.0 < m
    ensures q == x / m && q * m == x && (q == 1.0 <==> x == m) && (q == 0.0 <==> x == 0.0)
  {
    q := x / m;
  }

  lemma NonNegative(d: real, m: real)
    requires 0.0 < m && 0.0 <= d * m
    ensures 0.0 <= d
  {
  }

  /** e is the first evidence that matches best, and it matches at all. */
  ghost predicate FirstBest(claim: Passage, evidence: seq<Evidence>, e: int) {
    && 0 <= e < |evidence| && 0.0 < Score(claim, evidence[e].passage)
    && (forall k :: 0 <= k < |evidence| ==> Score(claim, evidence[k].passage) <= Score(claim, evidence[e].passage))
    && (forall k :: 0 <= k < e ==> Score(claim, evidence[k].passage) < Score(claim, evidence[e].passage))
  }

  ghost predicate NoMatch(claim: Passage, evidence: seq<Evidence>) {
    forall k :: 0 <= k < |evidence| ==> Score(claim, evidence[k].passage) <= 0.0
  }

  /** What verification may say of a claim. A linked claim is linked to the first
      best evidence only, with a status its score warrants and that score, held
      between 0.45 and 0.95, as its confidence; an unlinked one is unsupported at 0.35. */
  ghost predicate Verified(c: Claim, evidence: seq<Evidence>) {
    if c.evidenceIds == [] then
      && c.status.Unsupported? && c.confidence == 0.35
      && (NoMatch(c.text, evidence)
          || exists e :: FirstBest(c.text, evidence, e) && Score(c.text, evidence[e].passage) < 0.35)
    else
      && |c.evidenceIds| == 1
      && var e := c.evidenceIds[0];
      && FirstBest(c.text, evidence, e)
      && var score := Score(c.text, evidence[e].passage);
      && 0.35 <= score && 0.45 <= c.confidence <= 0.95
      && (score <= 0.45 ==> c.confidence == 0.45)
      && (0.45 <= score <= 0.95 ==> c.confidence == score)
      && (0.95 <= score ==> c.confidence == 0.95)
      && (c.status.Supported? <==> 0.72 <= score && c.text.negated == evidence[e].passage.negated)
      && (c.status.Conflicting? <==> 0.55 <= score && c.text.negated != evidence[e].passage.negated)
      && (c.status.Supported? || c.status.Conflicting? || c.status.PartiallySupported?)
  }

  /** Verification is a function of the claim's text and the evidence: two claims
      verified against the same evidence agree in all they say. */
  lemma VerifiedIsDetermined(a: Claim, b: Claim, evidence: seq<Evidence>)
    requires a.text == b.text && Verified(a, evidence) && Verified(b, evidence)
    ensures a.evidenceIds == b.evidenceIds && a.status == b.status && a.confidence == b.confidence
  {
    FirstBestIsUnique(a.text, evidence);
    if a.evidenceIds != [] && b.evidenceIds != [] {
      assert a.evidenceIds[0] == b.evidenceIds[0];
      assert a.evidenceIds == [a.evidenceIds[0]] && b.evidenceIds == [b.evidenceIds[0]];
    }
  }

  lemma FirstBestIsUnique(claim: Passage, evidence: seq<Evidence>)
    ensures forall d, e :: FirstBest(claim, evidence, d) && FirstBest(claim, evidence, e) ==> d == e
    ensures NoMatch(claim, evidence) ==> forall e :: !FirstBest(claim, evidence, e)
  {
  }

  // ----- Integrity -----

  /** The ids of the evidence taken from one source, in order. */
  function EvidenceOf(evidence: seq<Evidence>, source: nat): seq<nat> {
    if evidence == [] then []
    else
      var last := |evidence| - 1;
      EvidenceOf(evidence[..last], source) + if evidence[last].sourceId == source then [evidence[last].id] else []
  }

  /** Ids are positions, every evidence names an existing source, and each source
      has one citation, which lists exactly its evidence in order. */
  ghost predicate Linked(sources: seq<Source>, evidence: seq<Evidence>, citations: seq<Citation>) {
    && |citations| == |sources|
    && (forall i :: 0 <= i < |sources| ==> sources[i].id == i)
    && (forall j :: 0 <= j < |evidence| ==> evidence[j].id == j && evidence[j].sourceId < |sources|)
    && (forall i :: 0 <= i < |citations| ==>
          citations[i].id == i && citations[i].sourceId == i && citations[i].evidenceIds == EvidenceOf(evidence, i))
  }

  /** The claim's linked evidence belongs to the source. */
  predicate Backs(c: Claim, evidence: seq<Evidence>, source: nat) {
    exists k :: 0 <= k < |c.evidenceIds| && c.evidenceIds[k] < |evidence| && evidence[c.evidenceIds[k]].sourceId == source
  }

  predicate CitedRight(evidence: seq<Evidence>, claims: seq<Claim>, c: Citation, id: nat) {
    id in c.claimIds <==> id < |claims| && Backs(claims[id], evidence, c.sourceId)
  }

  /** Claim ids are positions, claims refer to existing evidence, and a citation
      lists a claim if and only if the claim's evidence is its source's. */
  ghost predicate ClaimsCited(evidence: seq<Evidence>, claims: seq<Claim>, citations: seq<Citation>) {
    && (forall k :: 0 <= k < |claims| ==> claims[k].id == k)
    && (forall k :: 0 <= k < |claims| ==> forall e :: e in claims[k].evidenceIds ==> e < |evidence|)
    && (forall i, id: nat :: 0 <= i < |citations| ==> CitedRight(evidence, claims, citations[i], id))
  }

  lemma {:induction false} EvidenceOfNewSource(evidence: seq<Evidence>, source: nat)
    requires forall j :: 0 <= j < |evidence| ==> evidence[j].sourceId < source
    ensures EvidenceOf(evidence, source) == []
    decreases |evidence|
  {
    if evidence != [] { EvidenceOfNewSource(evidence[..|evidence| - 1], source); }
  }

  /** Evidence is listed by exactly one citation: its own source's. */
  lemma {:induction false} ListedIffOwn(evidence: seq<Evidence>, source: nat)
    requires forall j :: 0 <= j < |evidence| ==> evidence[j].id == j
    ensures forall id :: id in EvidenceOf(evidence, source) <==> 0 <= id < |evidence| && evidence[id].sourceId == source
    decreases |evidence|
  {
    if evidence != [] { ListedIffOwn(evidence[..|evidence| - 1], source); }
  }

  /** New evidence of the newest source goes to the end of its citation's list. */
  lemma EvidenceListed(sources: seq<Source>, evidence: seq<Evidence>, citations: seq<Citation>, newest: Citation, passage: Passage)
    requires Linked(sources, evidence, citations + [newest])
    ensures Linked(sources, evidence + [Evidence(|evidence|, newest.sourceId, passage)],
                   citations + [newest.(evidenceIds := newest.evidenceIds + [|evidence|])])
  {
    var all, item := citations + [newest], Evidence(|evidence|, newest.sourceId, passage);
    var next := citations + [newest.(evidenceIds := newest.evidenceIds + [|evidence|])];
    assert (evidence + [item])[..|evidence|] == evidence;
    assert all[|citations|] == newest;
    forall i | 0 <= i < |next| ensures next[i].id == i && next[i].sourceId == i && next[i].evidenceIds == EvidenceOf(evidence + [item], i) {
      assert all[i].id == i;
    }
  }

  /** Adding a verified claim keeps the citations right, if the citation of its
      evidence, and no other, gains its id. */
  lemma CiteOneMore(evidence: seq<Evidence>, claims: seq<Claim>, claim: Claim, before: seq<Citation>, after: seq<Citation>)
    requires ClaimsCited(evidence, claims, before) && |before| == |after|
    requires claim.id == |claims| && forall e :: e in claim.evidenceIds ==> e < |evidence|
    requires forall i :: 0 <= i < |before| ==> after[i].sourceId == before[i].sourceId
    requires forall i :: 0 <= i < |before| ==> forall id ::
               id in after[i].claimIds <==> id in before[i].claimIds || (id == claim.id && Backs(claim, evidence, before[i].sourceId))
    ensures ClaimsCited(evidence, claims + [claim], after)
  {
    forall i, id: nat | 0 <= i < |after| ensures CitedRight(evidence, claims + [claim], after[i], id) {
      assert CitedRight(evidence, claims, before[i], id);
    }
  }

  predicate Unlinked(claims: seq<Claim>) {
    forall k :: 0 <= k < |claims| ==> claims[k].id == k && claims[k].evidenceIds == []
  }

  lemma UnlinkedNeedsNoCitation(evidence: seq<Evidence>, claims: seq<Claim>, citations: seq<Citation>)
    requires Unlinked(claims) && ClaimsCited(evidence, [], citations)
    ensures ClaimsCited(evidence, claims, citations)
  {
    forall i, id: nat | 0 <= i < |citations| ensures CitedRight(evidence, claims, citations[i], id) {
      assert CitedRight(evidence, [], citations[i], id);
    }
  }

  class Findings {
    var sources: seq<Source>
    var evidence: seq<Evidence>
    var claims: seq<Claim>
    var citations: seq<Citation>

    constructor ()
      ensures sources == [] && evidence == [] && claims == [] && citations == []
    {
      sources, evidence, claims, citations := [], [], [], [];
    }

    ghost predicate Sound()
      reads this
    {
      Linked(sources, evidence, citations) && ClaimsCited(evidence, claims, citations)
    }

    /** Keep the first `maximum` usable source addresses as sources. */
    method CollectSources(raw: seq<(Address, bool)>, maximum: nat)
      requires sources == []
      modifies this`sources
      ensures sources == Listed(Take(Usable(raw), maximum))
    {
      var at := 0;
      while at < |raw| && |sources| < maximum
        invariant at <= |raw| && |sources| <= maximum
        invariant sources == Listed(Usable(raw[..at]))
      {
        assert raw[..at + 1][..at] == raw[..at];
        if raw[at].1 {
          sources := sources + [Source(|sources|, raw[at].0)];
        }
        at := at + 1;
      }
      UsablePrefix(raw, at);
      assert Take(Usable(raw), maximum) == Usable(raw[..at]) by {
        if at == |raw| { assert raw[..at] == raw; }
      }
    }

    /** One empty citation for each source, in order. */
    method CiteSources()
      requires forall i :: 0 <= i < |sources| ==> sources[i].id == i
      modifies this`citations, this`evidence, this`claims
      ensures evidence == [] && claims == []
      ensures Linked(sources, evidence, citations)
      ensures forall i :: 0 <= i < |citations| ==> citations[i].claimIds == []
    {
      evidence, claims, citations := [], [], [];
      while |citations| < |sources|
        invariant |citations| <= |sources| && evidence == [] && claims == []
        invariant forall i :: 0 <= i < |citations| ==> citations[i] == Citation(i, i, [], [])
      {
        citations := citations + [Citation(|citations|, sources[|citations|].id, [], [])];
      }
    }

    /** Append one piece of evidence of a cited source, and list it. */
    method AddEvidence(source: nat, passage: Passage)
      requires source < |sources| && Linked(sources, evidence, citations)
      modifies this`evidence, this`citations
      ensures Linked(sources, evidence, citations)
      ensures evidence == old(evidence) + [Evidence(|old(evidence)|, source, passage)]
      ensures forall i :: 0 <= i < |citations| ==> citations[i].claimIds == old(citations)[i].claimIds
    {
      var id := |evidence|;
      evidence := evidence + [Evidence(id, source, passage)];
      assert evidence[..id] == old(evidence);
      var c := citations[source];
      citations := citations[source := c.(evidenceIds := c.evidenceIds + [id])];
    }

    /** Turn attributable passages into evidence, each text once, up to the limit;
        passages of unknown origin are left out. */
    method BuildFromPassages(records: seq<Record>)
      requires forall i :: 0 <= i < |sources| ==> sources[i].id == i
      modifies this`citations, this`evidence, this`claims
      ensures Linked(sources, evidence, citations) && claims == []
      ensures evidence == GatherAll(sources, records)
      ensures forall i :: 0 <= i < |citations| ==> citations[i].claimIds == []
    {
      CiteSources();
      var seen: set<string> := {};
      var r := 0;
      while r < |records| && |evidence| < MAX_EVIDENCE
        invariant r <= |records| && Built(GatherAll(sources, records[..r]), seen)
      {
        assert records[..r + 1][..r] == records[..r];
        var source := Attribution(sources, records[r].url);
        if source.Some? {
          seen := BuildFromRecord(source.value, SelectPassages(records[r].text, 3), seen);
        }
        r := r + 1;
      }
      AllFullStays(sources, records, r);
    }

    /** The passages of one record: those not seen before become evidence. */
    method BuildFromRecord(source: nat, passages: seq<Passage>, seen: set<string>) returns (now: set<string>)
      requires source < |sources| && Built(evidence, seen)
      modifies this`citations, this`evidence
      ensures Built(Gather(old(evidence), source, passages), now)
    {
      now := seen;
      var p := 0;
      while p < |passages| && |evidence| < MAX_EVIDENCE
        invariant p <= |passages| && Built(Gather(old(evidence), source, passages[..p]), now)
      {
        GatherNext(old(evidence), source, passages, p);
        now := AddUnseen(source, passages[p], now);
        p := p + 1;
      }
      FullStays(old(evidence), source, passages, p);
    }

    method AddUnseen(source: nat, passage: Passage, seen: set<string>) returns (now: set<string>)
      requires source < |sources| && Built(evidence, seen)
      modifies this`citations, this`evidence
      ensures Built(if Seen(old(evidence), passage.text) then old(evidence)
                    else old(evidence) + [Evidence(|old(evidence)|, source, passage)], now)
    {
      now := seen;
      if passage.text !in now {
        ghost var before := evidence;
        AddEvidence(source, passage);
        now := now + {passage.text};
        SeenOneMore(before, evidence[|before|]);
      }
    }

    /** The evidence is what was gathered so far, and its texts are the seen ones. */
    ghost predicate Built(gathered: seq<Evidence>, seen: set<string>)
      reads this
    {
      && Linked(sources, evidence, citations) && claims == []
      && (forall i :: 0 <= i < |citations| ==> citations[i].claimIds == [])
      && evidence == gathered
      && (forall text :: text in seen <==> Seen(evidence, text))
    }

    /** Which citation lists each piece of evidence. */
    method CitationByEvidence() returns (owner: map<nat, nat>)
      requires Linked(sources, evidence, citations)
      ensures owner == map id: nat | id < |evidence| :: evidence[id].sourceId
    {
      owner := map[];
      var i := 0;
      while i < |citations|
        invariant i <= |citations|
        invariant forall id: nat :: id in owner <==> id < |evidence| && evidence[id].sourceId < i
        invariant forall id :: id in owner ==> owner[id] == evidence[id].sourceId
      {
        ListedIffOwn(evidence, i);
        var ids, j := citations[i].evidenceIds, 0;
        while j < |ids|
          invariant j <= |ids|
          invariant forall id: nat :: id in owner <==> id < |evidence| && (evidence[id].sourceId < i || id in ids[..j])
          invariant forall id :: id in owner ==> owner[id] == evidence[id].sourceId
        {
          assert ids[..j + 1] == ids[..j] + [ids[j]];
          owner := owner[ids[j] := i];
          j := j + 1;
        }
        assert ids[..j] == ids;
        i := i + 1;
      }
    }

    /** Scan all evidence for the first best match. */
    method BestEvidence(claim: Passage) returns (best: Option<nat>, score: real)
      ensures best.None? ==> NoMatch(claim, evidence) && score == 0.0
      ensures best.Some? ==> FirstBest(claim, evidence, best.value) && score == Score(claim, evidence[best.value].passage)
    {
      best, score := None, 0.0;
      var k := 0;
      while k < |evidence|
        invariant k <= |evidence|
        invariant best.None? ==> score == 0.0
        invariant forall j :: 0 <= j < k ==> Score(claim, evidence[j].passage) <= score
        invariant best.Some? ==>
                    && best.value < k && 0.0 < score == Score(claim, evidence[best.value].passage)
                    && forall j :: 0 <= j < best.value ==> Score(claim, evidence[j].passage) < score
      {
        var s := Score(claim, evidence[k].passage);
        if s > score {
          score := s;
          best := Some(k);
        }
        k := k + 1;
      }
    }

    /** Verify the report's claims against all evidence and list each linked
        claim in the citation of its evidence. The citations start without
        claims. */
    method VerifyClaims(report: seq<Passage>) returns (verified: seq<Claim>)
      requires Linked(sources, evidence, citations)
      requires forall i :: 0 <= i < |citations| ==> citations[i].claimIds == []
      modifies this`citations
      ensures Linked(sources, evidence, citations) && ClaimsCited(evidence, verified, citations)
      ensures |verified| == |Take(Substantive(report), MAX_CLAIMS)|
      ensures forall k :: 0 <= k < |verified| ==>
                verified[k].text == Substantive(report)[k] && Verified(verified[k], evidence)
    {
      verified := [];
      var owner := CitationByEvidence();
      var texts := Take(Substantive(report), MAX_CLAIMS);
      while |verified| < |texts|
        invariant |verified| <= |texts|
        invariant Linked(sources, evidence, citations) && ClaimsCited(evidence, verified, citations)
        invariant forall k :: 0 <= k < |verified| ==> verified[k].text == texts[k] && Verified(verified[k], evidence)
      {
        ghost var before := citations;
        var claim := VerifyClaim(|verified|, texts[|verified|], owner);
        CiteOneMore(evidence, verified, claim, before, citations);
        verified := verified + [claim];
      }
    }

    /** What the evidence says of one claim. */
    method Judge(id: nat, text: Passage) returns (claim: Claim)
      ensures claim.id == id && claim.text == text && Verified(claim, evidence)
    {
      var best, score := BestEvidence(text);
      claim := Claim(id, text, [], 0.35, Unsupported);
      if best.None? {
        return;
      }
      var status := StatusFor(text, evidence[best.value].passage, score);
      if status.Unsupported? {
        return;
      }
      var confidence := if score < 0.45 then 0.45 else if score > 0.95 then 0.95 else score;
      claim := Claim(id, text, [best.value], confidence, status);
      assert claim.evidenceIds[0] == best.value;
    }

    /** Verify one claim; if it is linked, the citation of its evidence gains it. */
    method VerifyClaim(id: nat, text: Passage, owner: map<nat, nat>) returns (claim: Claim)
      requires Linked(sources, evidence, citations)
      requires owner == map e: nat | e < |evidence| :: evidence[e].sourceId
      modifies this`citations
      ensures Linked(sources, evidence, citations)
      ensures claim.id == id && claim.text == text && Verified(claim, evidence)
      ensures forall e :: e in claim.evidenceIds ==> e < |evidence|
      ensures forall i :: 0 <= i < |citations| ==> forall c ::
                c in citations[i].claimIds <==> c in old(citations)[i].claimIds || (c == id && Backs(claim, evidence, citations[i].sourceId))
    {
      claim := Judge(id, text);
      if claim.evidenceIds == [] {
        return;
      }
      var e := claim.evidenceIds[0];
      assert claim.evidenceIds == [e];
      var at := owner[e];
      if id !in citations[at].claimIds {
        citations := citations[at := citations[at].(claimIds := citations[at].claimIds + [id])];
      }
    }

    /** Drop the claims from all citations, before verifying anew. */
    method ClearClaimIds()
      requires Linked(sources, evidence, citations)
      modifies this`citations
      ensures Linked(sources, evidence, citations)
      ensures forall i :: 0 <= i < |citations| ==> citations[i].claimIds == []
    {
      var i := 0;
      while i < |citations|
        invariant i <= |citations| && Linked(sources, evidence, citations)
        invariant forall k :: 0 <= k < i ==> citations[k].claimIds == []
      {
        citations := citations[i := citations[i].(claimIds := [])];
        i := i + 1;
      }
    }

    /** Local inputs become sources of their own, each with its citation and at
        most two pieces of evidence. */
    method AppendInputSources(chunks: seq<Text>)
      requires Linked(sources, evidence, citations)
      modifies this`sources, this`evidence, this`citations
      ensures Linked(sources, evidence, citations)
      ensures |sources| == |old(sources)| + |chunks| && old(sources) <= sources && old(citations) <= citations
      ensures evidence == WithInputs(old(evidence), |old(sources)|, chunks)
    {
      var n := 0;
      while n < |chunks|
        invariant n <= |chunks| && Linked(sources, evidence, citations)
        invariant |sources| == |old(sources)| + n && old(sources) <= sources && old(citations) <= citations
        invariant evidence == WithInputs(old(evidence), |old(sources)|, chunks[..n])
      {
        assert chunks[..n + 1][..n] == chunks[..n];
        AppendInputSource(chunks[n]);
        n := n + 1;
      }
      assert chunks[..n] == chunks;
    }

    method AppendInputSource(chunk: Text)
      requires Linked(sources, evidence, citations)
      modifies this`sources, this`evidence, this`citations
      ensures Linked(sources, evidence, citations)
      ensures sources == old(sources) + [Source(|old(sources)|, NoAddress)]
      ensures evidence == Append(old(evidence), |old(sources)|, SelectPassages(chunk, 2))
      ensures old(citations) <= citations
    {
      var sourceId := |sources|;
      EvidenceOfNewSource(evidence, sourceId);
      sources := sources + [Source(sourceId, NoAddress)];
      var citation := Citation(|citations|, sourceId, [], []);
      var passages, p := SelectPassages(chunk, 2), 0;
      assert Linked(sources, evidence, citations + [citation]);
      while p < |passages|
        invariant p <= |passages| && evidence == Append(old(evidence), sourceId, passages[..p])
        invariant sources == old(sources) + [Source(sourceId, NoAddress)] && citations == old(citations)
        invariant citation.sourceId == sourceId && Linked(sources, evidence, citations + [citation])
      {
        assert passages[..p + 1][..p] == passages[..p];
        var id := |evidence|;
        EvidenceListed(sources, evidence, citations, citation, passages[p]);
        evidence := evidence + [Evidence(id, sourceId, passages[p])];
        citation := citation.(evidenceIds := citation.evidenceIds + [id]);
        p := p + 1;
      }
      assert passages[..p] == passages;
      citations := citations + [citation];
    }

    ghost predicate AllVerified(report: seq<Passage>)
      reads this
    {
      && |claims| == |Take(Substantive(report), MAX_CLAIMS)|
      && forall k :: 0 <= k < |claims| ==>
           claims[k].text == Substantive(report)[k] && Verified(claims[k], evidence)
    }

    ghost predicate AllInferred(report: seq<Passage>)
      reads this`claims
    {
      && |claims| == |Take(Substantive(report), MAX_INFERRED)|
      && forall k :: 0 <= k < |claims| ==> claims[k] == Claim(k, Substantive(report)[k], [], 0.4, Inferred)
    }

    /** The whole assembly of a result: collect sources, build and verify, or fall
        back; then, if local inputs were given, add them, clear and verify again.
        Whatever path is taken, the finished graph is sound. */
    method Assemble(
        raw: seq<(Address, bool)>, maximumSources: nat, records: seq<Record>, report: seq<Passage>,
        inputs: seq<Text>, requireVerification: bool, notice: Passage)
      requires sources == [] && evidence == [] && claims == [] && citations == []
      modifies this
      ensures Sound()
      ensures var web := Listed(Take(Usable(raw), maximumSources));
              && web <= sources && |sources| == |web| + |inputs|
              && evidence == WithInputs(if web == [] then [] else GatherAll(web, records), |web|, inputs)
      ensures inputs != [] && Substantive(report) != [] ==> AllVerified(report)
      ensures inputs == [] && sources != [] ==> if records != [] then AllVerified(report) else AllInferred(report)
    {
      FromResearch(raw, maximumSources, records, report, requireVerification, notice);
      if inputs != [] {
        assert Take(sources, maximumSources) == sources;
        sources := Take(sources, maximumSources);
        AppendInputSources(inputs);
        ClearClaimIds();
        var again := VerifyClaims(report);
        if again != [] {
          claims := again;
        } else {
          UnlinkedNeedsNoCitation(evidence, claims, citations);
        }
      }
    }

    /** The graph of the web research alone. */
    method FromResearch(
        raw: seq<(Address, bool)>, maximumSources: nat, records: seq<Record>, report: seq<Passage>,
        requireVerification: bool, notice: Passage)
      requires sources == [] && evidence == [] && claims == [] && citations == []
      modifies this
      ensures Sound() && sources == Listed(Take(Usable(raw), maximumSources))
      ensures evidence == if sources == [] then [] else GatherAll(sources, records)
      ensures sources != [] ==> if records != [] then AllVerified(report) else AllInferred(report)
      ensures sources == [] ==> claims == if requireVerification then [Claim(0, notice, [], 0.0, Unsupported)] else []
      ensures Substantive(report) == [] ==> Unlinked(claims)
    {
      CollectSources(raw, maximumSources);
      if sources != [] && records != [] {
        BuildFromPassages(records);
        claims := VerifyClaims(report);
      } else if sources != [] {
        CiteSources();
        claims := InferClaims(report);
        UnlinkedNeedsNoCitation(evidence, claims, citations);
      } else if requireVerification {
        claims := [Claim(0, notice, [], 0.0, Unsupported)];
      }
    }

    /** Without passage text, report sentences become unattributed claims. */
    method InferClaims(report: seq<Passage>) returns (inferred: seq<Claim>)
      ensures |inferred| == |Take(Substantive(report), MAX_INFERRED)|
      ensures forall k :: 0 <= k < |inferred| ==>
                inferred[k] == Claim(k, Substantive(report)[k], [], 0.4, Inferred)
    {
      inferred := [];
      var texts := Take(Substantive(report), MAX_INFERRED);
      while |inferred| < |texts|
        invariant |inferred| <= |texts|
        invariant forall k :: 0 <= k < |inferred| ==> inferred[k] == Claim(k, texts[k], [], 0.4, Inferred)
      {
        inferred := inferred + [Claim(|inferred|, texts[|inferred|], [], 0.4, Inferred)];
      }
    }
  }
}
