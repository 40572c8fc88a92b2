/**
 The selector that asks a language model: its reply may name only what the snapshot offers,
 and its reason is carried along, stripped and cut.
 */
module ModelSelector {
  import opened Wrappers
  import opened Text
  import opened RoutingDecision
  import opened DomainSelector

  /** `score` is what `int` makes of the field, or the class of what it raises. */
  datatype RawCandidate = NoCandidate | RawCandidate(
    domainId: string, capabilityIds: seq<string>, score: Result<int, string>, reasons: seq<string>)

  /**
   Texts are what `str(value or "")` reads under each key; `candidates` is what `list` makes of
   the field or the class of what it raises, and `own` what the reply says of a single Domain.
   */
  datatype Reply = NoReply | Reply(
    status: string, reasonCode: string, candidates: Result<seq<RawCandidate>, string>, own: RawCandidate)

  const MODEL_ID := "model.v1"

  /** One candidate, known to the snapshot, under the snapshot's own label. */
  function Known(domains: seq<Domain>, raw: RawCandidate): Result<Candidate, Code> {
    match raw
    case NoCandidate => Err(SelectorInvalid)
    case RawCandidate(domainId, capabilityIds, score, reasons) =>
      match score
      case Err(raised) => if SafeIdentity(domainId) == "" then Err(SelectorInvalid) else Err(SelectorFailed(raised))
      case Ok(n) =>
        var c :- RebuildCandidate(Candidate(domainId, "", capabilityIds, n, reasons));
        match FindDomain(domains, c.domainId)
        case None => Err(SelectorInvalid)
        case Some(m) =>
          if forall id | id in c.capabilityIds :: exists k | k in m.capabilities :: k.id == id
          then Ok(c.(labelText := m.labelText)) else Err(SelectorInvalid)
  }

  function AllKnown(domains: seq<Domain>, raws: seq<RawCandidate>): Result<seq<Candidate>, Code> {
    if raws == [] then Ok([])
    else
      var init :- AllKnown(domains, raws[..|raws| - 1]);
      var c :- Known(domains, raws[|raws| - 1]);
      Ok(init + [c])
  }

  /** The candidates that are read: a selection without any stands for itself. */
  function Given(reply: Reply, status: string): Result<seq<RawCandidate>, Code>
    requires reply.Reply?
  {
    match reply.candidates
    case Err(raised) => Err(SelectorFailed(raised))
    case Ok(listed) => Ok(Head(if status == "selected" && listed == [] then [reply.own] else listed, 8))
  }

  function ReasonOf(reply: Reply, status: string): string
    requires reply.Reply?
  {
    Bounded(if reply.reasonCode == "" then "model_" + status else reply.reasonCode, 96)
  }

  function Assemble(reply: Reply, status: string, cs: seq<Candidate>, id: string, fingerprint: string): Result<Decision, Code>
    requires reply.Reply?
  {
    if status == "selected" && |cs| != 1 then Err(SelectorInvalid)
    else if status == "ambiguous" && |cs| < 2 then Err(SelectorInvalid)
    else if status == "unmatched" && cs != [] then Err(SelectorInvalid)
    else
      Ok(NewDecision(id, status, ReasonOf(reply, status), MODEL_ID, fingerprint, cs,
                     if status == "selected" then Some(Selection(cs[0].domainId, "automatic")) else None))
  }

  /** `ModelDomainSelector.select`, given what the model replied. */
  function FromReply(domains: seq<Domain>, reply: Reply, id: string, fingerprint: string): Result<Decision, Code> {
    match reply
    case NoReply => Err(SelectorInvalid)
    case Reply(_, _, _, _) =>
      var status := Lower(Bounded(reply.status, 32));
      if status !in {"selected", "ambiguous", "unmatched"} then Err(SelectorInvalid)
      else
        var raws :- Given(reply, status);
        var cs :- AllKnown(domains, raws);
        Assemble(reply, status, cs, id, fingerprint)
  }

  lemma {:induction false} FirstUnknown(domains: seq<Domain>, raws: seq<RawCandidate>, n: nat)
    requires n <= |raws| && AllKnown(domains, raws[..n]).Err?
    ensures AllKnown(domains, raws) == AllKnown(domains, raws[..n])
    decreases |raws|
  {
    if n < |raws| {
      assert raws[..|raws| - 1][..n] == raws[..n];
      FirstUnknown(domains, raws[..|raws| - 1], n);
    } else {
      assert raws[..n] == raws;
    }
  }

  /** The loop over the reply's candidates. */
  method ReadCandidates(domains: seq<Domain>, raws: seq<RawCandidate>) returns (r: Result<seq<Candidate>, Code>)
    ensures r == AllKnown(domains, raws)
  {
    var cs := [];
    for i := 0 to |raws|
      invariant AllKnown(domains, raws[..i]) == Ok(cs)
    {
      assert raws[..i + 1][..i] == raws[..i];
      var c := Known(domains, raws[i]);
      if c.Err? {
        FirstUnknown(domains, raws, i + 1);
        return Err(c.error);
      }
      cs := cs + [c.value];
    }
    assert raws[..|raws|] == raws;
    return Ok(cs);
  }

  method SelectFromReply(domains: seq<Domain>, reply: Reply, id: string, fingerprint: string) returns (r: Result<Decision, Code>)
    ensures r == FromReply(domains, reply, id, fingerprint)
  {
    if reply.NoReply? {
      return Err(SelectorInvalid);
    }
    var status := Lower(Bounded(reply.status, 32));
    if status !in {"selected", "ambiguous", "unmatched"} {
      return Err(SelectorInvalid);
    }
    var raws :- Given(reply, status);
    var cs :- ReadCandidates(domains, raws);
    return Assemble(reply, status, cs, id, fingerprint);
  }

  // ---------------------------------------------------------------- what a reply can make

  lemma {:induction false} TextListBounds(items: seq<string>, width: nat)
    ensures |TextList(items, width)| <= |items|
    ensures forall t | t in TextList(items, width) :: 1 <= |t| <= width && !IsSpace(t[0])
  {
    if items != [] {
      StripStable(items[0]);
      TextListBounds(items[1..], width);
    }
  }

  lemma {:induction false} IdentityListBounds(items: seq<string>)
    ensures |IdentityList(items)| <= |items|
    ensures forall t | t in IdentityList(items) :: IsIdentity(t)
  {
    if items != [] {
      IdentityListBounds(items[1..]);
    }
  }

  /** Rebuilding keeps every bound, whatever it was given. */
  lemma RebuiltIsBounded(c: Candidate)
    requires RebuildCandidate(c).Ok?
    ensures CandidateBounded(RebuildCandidate(c).value)
  {
    TextListBounds(Head(c.reasons, 8), 120);
    IdentityListBounds(Head(c.capabilityIds, 8));
  }

  lemma KnownIsIn(domains: seq<Domain>, raw: RawCandidate)
    requires (forall d | d in domains :: DomainOk(d)) && Known(domains, raw).Ok?
    ensures CandidateIn(domains, Known(domains, raw).value)
  {
    var c := RebuildCandidate(Candidate(raw.domainId, "", raw.capabilityIds, raw.score.value, raw.reasons)).value;
    RebuiltIsBounded(Candidate(raw.domainId, "", raw.capabilityIds, raw.score.value, raw.reasons));
    var m := FindDomain(domains, c.domainId).value;
    assert m in domains && m.id == c.domainId && DomainOk(m);
  }

  lemma {:induction false} AllKnownAreIn(domains: seq<Domain>, raws: seq<RawCandidate>)
    requires (forall d | d in domains :: DomainOk(d)) && AllKnown(domains, raws).Ok?
    ensures |AllKnown(domains, raws).value| == |raws|
    ensures forall c | c in AllKnown(domains, raws).value :: CandidateIn(domains, c)
    decreases |raws|
  {
    if raws != [] {
      AllKnownAreIn(domains, raws[..|raws| - 1]);
      KnownIsIn(domains, raws[|raws| - 1]);
    }
  }

  lemma ModelWords()
    ensures ShortText(MODEL_ID, 96) && "automatic" in SOURCES
  {
  }

  /** A reply that is accepted makes a coherent decision, unless the reason it gave is blank. */
  lemma ReplyIsCoherent(r: Router, reply: Reply, id: string, fingerprint: string)
    requires RouterOk(r) && ShortText(id, 96) && IsHex64(fingerprint) && FromReply(r.domains, reply, id, fingerprint).Ok?
    ensures var d := FromReply(r.domains, reply, id, fingerprint).value;
            && (d.reasonCode != "" ==> Coherent(r, d))
            && d.decisionId == id && d.parent.None? && d.selectorId == MODEL_ID && |d.candidates| <= 8
            && d.fingerprint == fingerprint
            && d.reasonCode == ReasonOf(reply, d.status)
  {
    var status := Lower(Bounded(reply.status, 32));
    var cs := AllKnown(r.domains, Given(reply, status).value).value;
    AllKnownAreIn(r.domains, Given(reply, status).value);
    ModelWords();
    if status == "selected" {
      assert cs[0].domainId == cs[0].domainId && Offers(cs, cs[0].domainId);
    }
  }

  /** A blank reason is the one thing the router refuses in what it is given. */
  lemma BlankReason(reply: Reply, status: string)
    requires reply.Reply? && status != ""
    ensures |ReasonOf(reply, status)| <= 96
    ensures ReasonOf(reply, status) == "" <==> reply.reasonCode != "" && Strip(reply.reasonCode) == ""
    ensures ReasonOf(reply, status) != "" ==> !IsSpace(ReasonOf(reply, status)[0])
  {
    var written := if reply.reasonCode == "" then "model_" + status else reply.reasonCode;
    StripStable(written);
    if reply.reasonCode == "" {
      assert written[0] == 'm';
      VisibleStrips(written);
    }
  }

  /**
   The router accepts what an accepted reply makes exactly when the reason it wrote is not all
   blanks; the dictionary form then reads it back up to blank edges.
   */
  lemma ModelDecisionValid(r: Router, reply: Reply, id: string, fingerprint: string)
    requires RouterOk(r) && ShortText(id, 96) && IsHex64(fingerprint) && FromReply(r.domains, reply, id, fingerprint).Ok?
    ensures var d := FromReply(r.domains, reply, id, fingerprint).value;
            && (Validate(r, d).Ok? <==> reply.reasonCode == "" || Strip(reply.reasonCode) != "")
            && (Validate(r, d).Ok? ==>
                  && Validate(r, d) == Ok(d) && Resolve(r.registry, d).Ok?
                  && (Resolve(r.registry, d) == Ok(d) <==> TextsStable(d) && TrimStable(d.reasonCode)))
  {
    var d := FromReply(r.domains, reply, id, fingerprint).value;
    ReplyIsCoherent(r, reply, id, fingerprint);
    BlankReason(reply, d.status);
    if d.reasonCode != "" {
      DecisionValid(r, d);
      VisibleStrips(d.reasonCode);
    }
  }
}
