/**
 What a routing decision is read as, stated on what is given: the dictionary form, a language
 model's reply, and the user's override.
 */
module DecisionMeaning {
  import opened Wrappers
  import opened Text
  import opened RoutingDecision
  import opened DomainSelector
  import opened ModelSelector
  import opened Pairwise
  import opened Places

  // ---------------------------------------------------------------- lists of texts

  function Cut(items: seq<string>, width: nat): (r: seq<string>)
    ensures |r| == |items| && forall i | 0 <= i < |r| :: r[i] == Bounded(items[i], width)
  {
    seq(|items|, i requires 0 <= i < |items| => Bounded(items[i], width))
  }

  predicate Visible(s: string) {
    s != ""
  }

  /** The first eight of the texts, cut, as far as they are wanted, in their order. */
  ghost predicate Kept(items: seq<string>, width: nat, wanted: string -> bool, kept: seq<string>) {
    exists at :: KeptAt(Cut(FirstEight(items), width), wanted, kept, at)
  }

  ghost predicate KeptAt(keys: seq<string>, wanted: string -> bool, kept: seq<string>, at: seq<nat>) {
    Chosen(keys, wanted, at) && At(keys, at, kept)
  }

  function FirstEight<T>(s: seq<T>): seq<T> {
    if |s| <= 8 then s else s[..8]
  }

  lemma OneMoreKept(keys: seq<string>, wanted: string -> bool, kept: seq<string>, at: seq<nat>)
    requires keys != [] && KeptAt(keys[..|keys| - 1], wanted, kept, at)
    ensures var last := keys[|keys| - 1];
            if wanted(last) then KeptAt(keys, wanted, kept + [last], at + [|keys| - 1]) else KeptAt(keys, wanted, kept, at)
  {
    OneMoreItem(keys, wanted, at);
    OneMoreAt(keys, at, kept);
  }

  function TextOr(s: string): seq<string> {
    if s == "" then [] else [s]
  }

  lemma Regroup(a: seq<string>, b: seq<string>, c: seq<string>)
    ensures a + (b + c) == (a + b) + c
  {
  }

  lemma {:induction false} TextListAppend(items: seq<string>, last: string, width: nat)
    ensures TextList(items + [last], width) == TextList(items, width) + TextOr(Bounded(last, width))
  {
    var all := items + [last];
    if items == [] {
      assert all[1..] == [] && all[0] == last;
    } else {
      var rest := items[1..];
      assert all[1..] == rest + [last] && all[0] == items[0];
      TextListAppend(rest, last, width);
      Regroup(TextOr(Bounded(items[0], width)), TextList(rest, width), TextOr(Bounded(last, width)));
    }
  }

  lemma {:induction false} IdentityListAppend(items: seq<string>, last: string)
    ensures IdentityList(items + [last]) == IdentityList(items) + TextOr(SafeIdentity(last))
  {
    var all := items + [last];
    if items == [] {
      assert all[1..] == [] && all[0] == last;
    } else {
      var rest := items[1..];
      assert all[1..] == rest + [last] && all[0] == items[0];
      IdentityListAppend(rest, last);
      Regroup(TextOr(SafeIdentity(items[0])), IdentityList(rest), TextOr(SafeIdentity(last)));
    }
  }

  lemma {:induction false} TextsKept(items: seq<string>, width: nat) returns (at: seq<nat>)
    ensures KeptAt(Cut(items, width), Visible, TextList(items, width), at)
    decreases |items|
  {
    at := [];
    if items != [] {
      var n, keys := |items| - 1, Cut(items, width);
      at := TextsKept(items[..n], width);
      assert Cut(items[..n], width) == keys[..n] && items == items[..n] + [items[n]];
      TextListAppend(items[..n], items[n], width);
      OneMoreKept(keys, Visible, TextList(items[..n], width), at);
      at := if keys[n] != "" then at + [n] else at;
    }
  }

  lemma {:induction false} IdentitiesKept(items: seq<string>) returns (at: seq<nat>)
    ensures KeptAt(Cut(items, 96), IsIdentity, IdentityList(items), at)
    decreases |items|
  {
    at := [];
    if items != [] {
      var n, keys := |items| - 1, Cut(items, 96);
      at := IdentitiesKept(items[..n]);
      assert Cut(items[..n], 96) == keys[..n] && items == items[..n] + [items[n]];
      IdentityListAppend(items[..n], items[n]);
      OneMoreKept(keys, IsIdentity, IdentityList(items[..n]), at);
      at := if IsIdentity(keys[n]) then at + [n] else at;
    }
  }

  /** What is kept is one list. */
  lemma OneKept(items: seq<string>, width: nat, wanted: string -> bool, a: seq<string>, b: seq<string>)
    requires Kept(items, width, wanted, a) && Kept(items, width, wanted, b)
    ensures a == b
  {
    var keys := Cut(FirstEight(items), width);
    var at :| KeptAt(keys, wanted, a, at);
    var bt :| KeptAt(keys, wanted, b, bt);
    OneListOfPlaces(at, bt, |keys|);
  }

  lemma TextListMeans(items: seq<string>, width: nat, kept: seq<string>)
    ensures TextList(RoutingDecision.Head(items, 8), width) == kept <==> Kept(items, width, Visible, kept)
  {
    assert RoutingDecision.Head(items, 8) == FirstEight(items);
    var at := TextsKept(FirstEight(items), width);
    if Kept(items, width, Visible, kept) {
      OneKept(items, width, Visible, kept, TextList(FirstEight(items), width));
    }
  }

  lemma IdentityListMeans(items: seq<string>, kept: seq<string>)
    ensures IdentityList(RoutingDecision.Head(items, 8)) == kept <==> Kept(items, 96, IsIdentity, kept)
  {
    assert RoutingDecision.Head(items, 8) == FirstEight(items);
    var at := IdentitiesKept(FirstEight(items));
    if Kept(items, 96, IsIdentity, kept) {
      OneKept(items, 96, IsIdentity, kept, IdentityList(FirstEight(items)));
    }
  }

  // ---------------------------------------------------------------- candidates

  ghost predicate ScoreReads(given: int, n: int) {
    0 <= n <= 1000 && (0 <= given <= 1000 ==> n == given) && (given < 0 ==> n == 0) && (given > 1000 ==> n == 1000)
  }

  /** A candidate as it is read: its identity, its label or else its identity, and what is kept of its lists. */
  ghost predicate CandidateReads(c: Candidate, k: Candidate) {
    && IsIdentity(k.domainId) && k.domainId == Bounded(c.domainId, 96)
    && k.labelText == Bounded(if c.labelText == "" then k.domainId else c.labelText, 120)
    && Kept(c.capabilityIds, 96, IsIdentity, k.capabilityIds)
    && ScoreReads(c.score, k.score)
    && Kept(c.reasons, 120, Visible, k.reasons)
  }

  lemma CandidateMeans(c: Candidate, k: Candidate)
    ensures RebuildCandidate(c) == Ok(k) <==> CandidateReads(c, k)
  {
    IdentityListMeans(c.capabilityIds, k.capabilityIds);
    TextListMeans(c.reasons, 120, k.reasons);
  }

  ghost predicate CandidatesRead(cs: seq<Candidate>, ks: seq<Candidate>) {
    |ks| == |cs| && forall i | 0 <= i < |cs| :: CandidateReads(cs[i], ks[i])
  }

  lemma {:induction false} CandidatesMean(cs: seq<Candidate>, ks: seq<Candidate>)
    ensures RebuildCandidates(cs) == Ok(ks) <==> CandidatesRead(cs, ks)
  {
    if cs != [] && ks != [] {
      CandidateMeans(cs[0], ks[0]);
      CandidatesMean(cs[1..], ks[1..]);
      assert ks == [ks[0]] + ks[1..];
    }
  }

  // ---------------------------------------------------------------- the dictionary form

  ghost predicate SelectionReads(reg: Registry, given: Selection, sel: Selection) {
    && Strip(given.domainId) != "" && sel.domainId == Lower(Strip(given.domainId)) && sel.domainId in reg
    && sel.source == Lower(Strip(given.source)) && sel.source in {"explicit", "automatic", "restored", "legacy"}
  }

  lemma SelectionMeans(reg: Registry, given: Selection, sel: Selection)
    ensures ResolveSelection(reg, given) == Ok(sel) <==> SelectionReads(reg, given, sel)
  {
  }

  ghost predicate ParentReads(given: Option<string>, parent: Option<string>) {
    if given.None? || Bounded(given.value, 96) == "" then parent == None else parent == Some(Bounded(given.value, 96))
  }

  /** Every field is read from its own, stripped and cut. */
  ghost predicate DecisionReads(reg: Registry, given: Decision, d: Decision) {
    && d.schemaVersion == given.schemaVersion
    && d.decisionId == Bounded(given.decisionId, 96) && ParentReads(given.parent, d.parent)
    && d.status == Bounded(given.status, 32) && d.reasonCode == Bounded(given.reasonCode, 96)
    && d.selectorId == Bounded(given.selectorId, 96) && d.fingerprint == Bounded(given.fingerprint, 64)
    && CandidatesRead(given.candidates, d.candidates)
    && (if given.selection.None? then d.selection == None
        else d.selection.Some? && SelectionReads(reg, given.selection.value, d.selection.value))
  }

  /** One selection among the candidates or none, as the status says. */
  ghost predicate Sound(d: Decision) {
    && d.schemaVersion == "spatial-agent.domain-routing-decision.v1"
    && d.decisionId != "" && d.reasonCode != "" && d.selectorId != "" && IsHex64(d.fingerprint)
    && match d.status
       case "selected" => d.selection.Some? && exists c | c in d.candidates :: c.domainId == d.selection.value.domainId
       case "ambiguous" => d.selection.None? && |d.candidates| >= 2
       case "unmatched" => d.selection.None? && d.candidates == []
       case _ => false
  }

  lemma CheckMeans(reg: Registry, d: Decision)
    requires RegistryOk(reg)
    requires d.selection.Some? ==> d.selection.value.domainId in reg && d.selection.value.source in SOURCES
    ensures Check(reg, d) == Ok(d) <==> Sound(d)
    ensures Check(reg, d).Ok? ==> Check(reg, d) == Ok(d)
  {
    if d.selection.Some? {
      SelectionFix(reg, d.selection.value);
    }
  }

  /** The decision that is checked, and where its parts come from. */
  lemma ReadingIs(reg: Registry, given: Decision, d: Decision)
    ensures Resolve(reg, given) == Ok(d) ==>
              exists e :: DecisionReads(reg, given, e) && Check(reg, e) == Ok(d)
    ensures DecisionReads(reg, given, d) ==> Resolve(reg, given) == Check(reg, d)
  {
    CandidatesMean(given.candidates, d.candidates);
    if given.selection.Some? && d.selection.Some? {
      SelectionMeans(reg, given.selection.value, d.selection.value);
    }
    if Resolve(reg, given) == Ok(d) {
      var cs := RebuildCandidates(given.candidates).value;
      CandidatesMean(given.candidates, cs);
      var sel := if given.selection.None? then None else Some(ResolveSelection(reg, given.selection.value).value);
      if given.selection.Some? {
        SelectionMeans(reg, given.selection.value, sel.value);
      }
      var e := Decision(
        given.schemaVersion, Bounded(given.decisionId, 96), OptionalText(given.parent, 96), Bounded(given.status, 32),
        Bounded(given.reasonCode, 96), Bounded(given.selectorId, 96), Bounded(given.fingerprint, 64), cs, sel);
      assert DecisionReads(reg, given, e) && Check(reg, e) == Ok(d);
    }
  }

  /** The strict reading accepts exactly what reads as a sound decision. */
  lemma ResolveMeans(reg: Registry, given: Decision, d: Decision)
    requires RegistryOk(reg)
    ensures Resolve(reg, given) == Ok(d) <==> DecisionReads(reg, given, d) && Sound(d)
  {
    ReadingIs(reg, given, d);
    if Resolve(reg, given) == Ok(d) {
      var e :| DecisionReads(reg, given, e) && Check(reg, e) == Ok(d);
      CheckMeans(reg, e);
    }
    if DecisionReads(reg, given, d) {
      CheckMeans(reg, d);
    }
  }

  // ---------------------------------------------------------------- overrides

  /** The snapshot's Domain of this id; ids in a snapshot are distinct. */
  ghost predicate Labels(domains: seq<Domain>, id: string, shown: string) {
    exists m | m in domains :: m.id == id && m.labelText == shown
  }

  ghost predicate DistinctIds(domains: seq<Domain>) {
    forall i, j | 0 <= i < j < |domains| :: domains[i].id != domains[j].id
  }

  lemma {:induction false} FindMeans(domains: seq<Domain>, m: Domain)
    requires DistinctIds(domains) && m in domains
    ensures FindDomain(domains, m.id) == Some(m)
  {
    if domains[0] != m {
      assert m in domains[1..];
      FindMeans(domains[1..], m);
    }
  }

  /** An override is accepted exactly for an offered Domain and a prior decision that reads back. */
  lemma OverrideMeans(r: Router, prior: Decision, domainId: string, id: string)
    requires RouterOk(r)
    ensures var chosen, answer := Lower(Strip(domainId)), Override(r, prior, domainId, id);
            && (answer.Ok? <==>
                  Resolve(r.registry, prior).Ok? && chosen in r.enabled && exists m | m in r.domains :: m.id == chosen)
            && (answer.Ok? ==> exists shown | Labels(r.domains, chosen, shown) ::
                  answer.value == Decision(
                    "spatial-agent.domain-routing-decision.v1", id, Some(Bounded(prior.decisionId, 96)), "selected",
                    "user_domain_override", "user.v1", Bounded(prior.fingerprint, 64),
                    [Candidate(chosen, shown, [], 0, [])], Some(Selection(chosen, "explicit"))))
  {
    var chosen := Lower(Strip(domainId));
    if m :| m in r.domains && m.id == chosen {
      FindMeans(r.domains, m);
    }
    SourcesAreLower("explicit");
    LowerFix("explicit");
    StripStable("explicit");
    if chosen in r.enabled {
      assert IsIdentity(chosen);
    }
    if Resolve(r.registry, prior).Ok? {
      ResolveFacts(r.registry, prior);
    }
    if Override(r, prior, domainId, id).Ok? {
      var previous, sel, entry := OverrideIs(r, prior, domainId, id);
      assert Labels(r.domains, chosen, entry.labelText);
    }
  }

  /** A failing selector hands on the catalog's answer, under another name and with the failure as its reason. */
  lemma FallbackMeans(primary: Result<Decision, Code>, errorCode: string, fallback: Result<Decision, Code>, d: Decision)
    ensures Fallback(primary, errorCode, fallback) == Ok(d) <==>
            if primary.Ok? then d == primary.value
            else fallback.Ok? && d.reasonCode == "selector_fallback:" + errorCode && d.selectorId == "fallback.v1"
                 && fallback.value == d.(reasonCode := fallback.value.reasonCode, selectorId := fallback.value.selectorId)
  {
  }

  // ---------------------------------------------------------------- a model's reply

  /** A candidate the reply names: read like any other, known to the snapshot and under its label. */
  ghost predicate KnownReads(domains: seq<Domain>, raw: RawCandidate, c: Candidate) {
    && raw.RawCandidate? && raw.score.Ok?
    && IsIdentity(c.domainId) && c.domainId == Bounded(raw.domainId, 96)
    && Kept(raw.capabilityIds, 96, IsIdentity, c.capabilityIds)
    && ScoreReads(raw.score.value, c.score)
    && Kept(raw.reasons, 120, Visible, c.reasons)
    && exists m | m in domains :: m.id == c.domainId && m.labelText == c.labelText && KnowsAll(m, c.capabilityIds)
  }

  predicate KnowsAll(m: Domain, ids: seq<string>) {
    forall id | id in ids :: exists k | k in m.capabilities :: k.id == id
  }

  lemma KnownMeans(domains: seq<Domain>, raw: RawCandidate, c: Candidate)
    requires DistinctIds(domains)
    ensures Known(domains, raw) == Ok(c) <==> KnownReads(domains, raw, c)
  {
    if raw.RawCandidate? && raw.score.Ok? {
      var given := Candidate(raw.domainId, "", raw.capabilityIds, raw.score.value, raw.reasons);
      var named := Bounded(raw.domainId, 96);
      var k := c.(labelText := Bounded(named, 120));
      CandidateMeans(given, k);
      KnownIs(domains, raw, c, given, k);
    }
  }

  lemma KnownIs(domains: seq<Domain>, raw: RawCandidate, c: Candidate, given: Candidate, k: Candidate)
    requires DistinctIds(domains) && raw.RawCandidate? && raw.score.Ok?
    requires given == Candidate(raw.domainId, "", raw.capabilityIds, raw.score.value, raw.reasons)
    requires k == c.(labelText := Bounded(Bounded(raw.domainId, 96), 120))
    ensures Known(domains, raw) == Ok(c) <==>
            && RebuildCandidate(given) == Ok(k)
            && exists m | m in domains :: m.id == c.domainId && m.labelText == c.labelText && KnowsAll(m, c.capabilityIds)
  {
    if RebuildCandidate(given).Ok? {
      var b := RebuildCandidate(given).value;
      if m :| m in domains && m.id == b.domainId {
        FindMeans(domains, m);
      }
    }
  }

  ghost function Reading(domains: seq<Domain>): (RawCandidate, Candidate) -> bool {
    (raw: RawCandidate, c: Candidate) => KnownReads(domains, raw, c)
  }

  lemma KnownJoin(domains: seq<Domain>, raws: seq<RawCandidate>)
    requires raws != []
    ensures AllKnown(domains, raws) == Joined(AllKnown(domains, raws[..|raws| - 1]), Known(domains, raws[|raws| - 1]))
  {
  }

  lemma {:induction false} AllKnownMean(domains: seq<Domain>, raws: seq<RawCandidate>, cs: seq<Candidate>)
    requires DistinctIds(domains)
    ensures AllKnown(domains, raws) == Ok(cs) <==> Each(raws, cs, Reading(domains))
    decreases |raws|
  {
    if raws != [] && cs != [] {
      AllKnownMean(domains, raws[..|raws| - 1], cs[..|cs| - 1]);
      KnownMeans(domains, raws[|raws| - 1], cs[|cs| - 1]);
      KnownJoin(domains, raws);
      JoinedIs(AllKnown(domains, raws[..|raws| - 1]), Known(domains, raws[|raws| - 1]), cs);
      EachLast(raws, cs, Reading(domains));
    }
  }

  /** What the reply lists, of which eight are read; a selection that lists nothing stands for itself. */
  ghost predicate Lists(reply: Reply, status: string, raws: seq<RawCandidate>)
    requires reply.Reply?
  {
    && reply.candidates.Ok?
    && raws == if status == "selected" && reply.candidates.value == [] then [reply.own]
               else FirstEight(reply.candidates.value)
  }

  /** The decision is what the reply says, drawn from the snapshot. */
  ghost predicate ReplyReads(domains: seq<Domain>, reply: Reply, id: string, fingerprint: string, d: Decision) {
    && reply.Reply?
    && d.status == Lower(Bounded(reply.status, 32))
    && (exists raws :: Lists(reply, d.status, raws) && Each(raws, d.candidates, Reading(domains)))
    && (match d.status
        case "selected" => |d.candidates| == 1 && d.selection == Some(Selection(d.candidates[0].domainId, "automatic"))
        case "ambiguous" => |d.candidates| >= 2 && d.selection == None
        case "unmatched" => d.candidates == [] && d.selection == None
        case _ => false)
    && d.reasonCode == Bounded(if reply.reasonCode == "" then "model_" + d.status else reply.reasonCode, 96)
    && d.decisionId == id && d.parent == None && d.fingerprint == fingerprint && d.selectorId == "model.v1"
    && d.schemaVersion == "spatial-agent.domain-routing-decision.v1"
  }

  /** A reply makes exactly the decision it says, if all it names is known; anything else is refused. */
  lemma ReplyMeans(domains: seq<Domain>, reply: Reply, id: string, fingerprint: string, d: Decision)
    requires DistinctIds(domains)
    ensures FromReply(domains, reply, id, fingerprint) == Ok(d) <==> ReplyReads(domains, reply, id, fingerprint, d)
  {
    if reply.Reply? && reply.candidates.Ok? {
      var status, listed := Lower(Bounded(reply.status, 32)), reply.candidates.value;
      var raws := if status == "selected" && listed == [] then [reply.own] else FirstEight(listed);
      assert Given(reply, status) == Ok(raws);
      AllKnownMean(domains, raws, d.candidates);
      assert Lists(reply, status, raws);
    }
  }
}
