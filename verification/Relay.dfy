/** The per-message pipeline (internal/relay) and the failure reports it raises
    (internal/monitor): the role-gated entry, and `process` from its checks through dedup to
    the Publish call. The verdicts of the checks themselves are inputs. */
module Relay {
  import opened Json
  import opened Strings
  import Direct = Dedup
  import Gates

  datatype CheckOption = Off | Verify | DiscardOnFailure

  datatype Policy = Policy(topic: CheckOption, message: CheckOption, metadata: CheckOption, deleteContent: bool)

  /** What the checks say about one message. `schemaValid` is false when validation itself
      fails too; `isData` says whether the topic's fifth level is "data". */
  datatype Verdicts = Verdicts(topicAllowed: bool, validRel: bool, schemaValid: bool, isData: bool, registered: bool)

  datatype DedupReply = Seen | NotSeen | Failed

  datatype Kind = TopicFailure | SchemaFailure | MetadataFailure

  /** A published report: its kind and the topic it goes out on. */
  datatype Report = Report(kind: Kind, topic: string)

  datatype Msg = Msg(topic: string, payload: Json)

  // ---- Topics -----------------------------------------------------------------------

  function DomainFromTopic(topic: string): string {
    var parts := Split(topic, '/');
    if |parts| > 2 && parts[2] == "wis2" then "wis2" else "wigos"
  }

  function ReportTopic(topic: string, centre: string): string {
    "monitor/a/" + DomainFromTopic(topic) + "/" + centre
  }

  predicate IsMonitor(topic: string) { Contains(topic, "monitor") }

  predicate NeedsRelCheck(topic: string, centre: string) {
    !IsMonitor(topic) && !Contains(centre, "-global-broker") && !Contains(topic, "cache/a/wis2")
  }

  /** The links-rel rule applies to every message but those whose topic holds "monitor" or
      "cache/a/wis2" somewhere, and those of a centre that is itself a Global Broker. */
  lemma RelCheckScope(topic: string, centre: string)
    ensures NeedsRelCheck(topic, centre) <==>
            && (forall i :: 0 <= i <= |topic| ==> !("monitor" <= topic[i..]) && !("cache/a/wis2" <= topic[i..]))
            && (forall i :: 0 <= i <= |centre| ==> !("-global-broker" <= centre[i..]))
    ensures IsMonitor(topic) <==> exists i :: 0 <= i <= |topic| && "monitor" <= topic[i..]
  {
    ContainsAt(topic, "monitor");
    ContainsAt(topic, "cache/a/wis2");
    ContainsAt(centre, "-global-broker");
  }

  /** The third level of the topic decides where a report goes. */
  lemma ReportGoesTo(first: string, second: string, third: string, rest: string, centre: string)
    requires '/' !in first && '/' !in second && '/' !in third
    ensures ReportTopic(first + ['/'] + (second + ['/'] + third), centre)
            == (if third == "wis2" then "monitor/a/wis2/" else "monitor/a/wigos/") + centre
    ensures ReportTopic(first + ['/'] + (second + ['/'] + (third + ['/'] + rest)), centre)
            == (if third == "wis2" then "monitor/a/wis2/" else "monitor/a/wigos/") + centre
    ensures ReportTopic(first, centre) == ReportTopic(first + ['/'] + second, centre) == "monitor/a/wigos/" + centre
  {
    SplitAt(first, '/', second);
    SplitAt(first, '/', second + ['/'] + third);
    SplitAt(first, '/', second + ['/'] + (third + ['/'] + rest));
    SplitAt(second, '/', third);
    SplitAt(second, '/', third + ['/'] + rest);
    SplitAt(third, '/', rest);
    assert "monitor/a/" + "wis2" + "/" == "monitor/a/wis2/" && "monitor/a/" + "wigos" + "/" == "monitor/a/wigos/";
  }

  /** Every report is published on a topic about which no report is ever raised. */
  lemma ReportsAreNotReportedOn(topic: string, centre: string)
    ensures IsMonitor(ReportTopic(topic, centre))
  {
    assert "monitor" <= ReportTopic(topic, centre);
  }

  // ---- One message through the checks -----------------------------------------------

  predicate TopicFails(o: Policy, v: Verdicts) { !o.topic.Off? && !v.topicAllowed }

  predicate TopicStops(o: Policy, v: Verdicts) { TopicFails(o, v) && o.topic.DiscardOnFailure? }

  /** The links-rel rule stops a message under Verify as well as under Discard. */
  predicate RelStops(o: Policy, v: Verdicts, m: Msg, centre: string) {
    !TopicStops(o, v) && !o.message.Off? && NeedsRelCheck(m.topic, centre) && !v.validRel
  }

  predicate SchemaFails(o: Policy, v: Verdicts, m: Msg, centre: string) {
    !TopicStops(o, v) && !RelStops(o, v, m, centre) && !o.message.Off? && !v.schemaValid
  }

  predicate SchemaStops(o: Policy, v: Verdicts, m: Msg, centre: string) {
    SchemaFails(o, v, m, centre) && o.message.DiscardOnFailure?
  }

  predicate MetadataFails(o: Policy, v: Verdicts, m: Msg, centre: string) {
    && !TopicStops(o, v) && !RelStops(o, v, m, centre) && !SchemaStops(o, v, m, centre)
    && !o.metadata.Off? && v.isData && !v.registered
  }

  predicate MetadataStops(o: Policy, v: Verdicts, m: Msg, centre: string) {
    MetadataFails(o, v, m, centre) && o.metadata.DiscardOnFailure?
  }

  /** Some check discards the message. */
  predicate Stops(o: Policy, v: Verdicts, m: Msg, centre: string) {
    TopicStops(o, v) || RelStops(o, v, m, centre) || SchemaStops(o, v, m, centre) || MetadataStops(o, v, m, centre)
  }

  /** Dedup is consulted only for a message every check let through, and that has an id. */
  predicate Consults(o: Policy, v: Verdicts, m: Msg, centre: string) {
    !Stops(o, v, m, centre) && ExtractId(m.payload) != ""
  }

  predicate Publishes(o: Policy, v: Verdicts, m: Msg, centre: string, reply: DedupReply) {
    !Stops(o, v, m, centre) && !(ExtractId(m.payload) != "" && reply.Seen?)
  }

  /** A report about `topic`, unless the topic is a monitoring one. */
  function Raised(kind: Kind, when: bool, topic: string, centre: string): seq<Report> {
    if when && !IsMonitor(topic) then [Report(kind, ReportTopic(topic, centre))] else []
  }

  function TopicReports(o: Policy, v: Verdicts, m: Msg, centre: string): seq<Report> {
    Raised(TopicFailure, TopicFails(o, v), m.topic, centre)
  }

  function SchemaReports(o: Policy, v: Verdicts, m: Msg, centre: string): seq<Report> {
    Raised(SchemaFailure, RelStops(o, v, m, centre) || SchemaFails(o, v, m, centre), m.topic, centre)
  }

  function MetadataReports(o: Policy, v: Verdicts, m: Msg, centre: string): seq<Report> {
    Raised(MetadataFailure, MetadataFails(o, v, m, centre), m.topic, centre)
  }

  function Reports(o: Policy, v: Verdicts, m: Msg, centre: string): seq<Report> {
    TopicReports(o, v, m, centre) + SchemaReports(o, v, m, centre) + MetadataReports(o, v, m, centre)
  }

  function Outgoing(o: Policy, m: Msg): Msg {
    if o.deleteContent then m.(payload := Strip(m.payload)) else m
  }

  /** A processed message raises at most three reports, each of its own kind, and none when it
      is itself a monitoring message; a discarded one always raises a report unless its topic
      is exempt. */
  lemma ReportsAreBounded(o: Policy, v: Verdicts, m: Msg, centre: string)
    ensures |Reports(o, v, m, centre)| <= 3
    ensures IsMonitor(m.topic) ==> Reports(o, v, m, centre) == []
    ensures Stops(o, v, m, centre) && !IsMonitor(m.topic) ==> Reports(o, v, m, centre) != []
    ensures RelStops(o, v, m, centre) ==> !SchemaFails(o, v, m, centre) && !MetadataFails(o, v, m, centre)
  {
  }

  function ReplyOf(a: Direct.Answer): DedupReply {
    if a.failed then Failed else if a.seen then Seen else NotSeen
  }

  function Severity(c: CheckOption): nat {
    match c
    case Off => 0
    case Verify => 1
    case DiscardOnFailure => 2
  }

  predicate Stricter(p: Policy, o: Policy) {
    && Severity(o.topic) <= Severity(p.topic) && Severity(o.message) <= Severity(p.message)
    && Severity(o.metadata) <= Severity(p.metadata)
  }

  /** A stricter policy consults dedup for, and publishes, fewer messages, never others. Without
      any Discard the checks only report, but for one: the links-rel rule still stops a
      message under Verify. */
  lemma StricterPublishesLess(o: Policy, p: Policy, v: Verdicts, m: Msg, centre: string, reply: DedupReply)
    requires Stricter(p, o)
    ensures Consults(p, v, m, centre) ==> Consults(o, v, m, centre)
    ensures Publishes(p, v, m, centre, reply) ==> Publishes(o, v, m, centre, reply)
    ensures !p.topic.DiscardOnFailure? && !p.message.DiscardOnFailure? && !p.metadata.DiscardOnFailure? ==>
            (Stops(p, v, m, centre) <==> p.message.Verify? && NeedsRelCheck(m.topic, centre) && !v.validRel)
  {
    if Stops(o, v, m, centre) {
      if TopicFails(o, v) {
        assert TopicFails(p, v);
      }
    }
  }

  /** What one process call does, by nothing but the settings and the verdicts. A check counts and
      reports when it is on, its verdict is bad and no earlier rule discarded the message. The
      message is discarded by a bad verdict of a check set to discard, and by the links-rel
      rule of a message check that is on at all. */
  lemma RulesByVerdict(o: Policy, v: Verdicts, m: Msg, centre: string)
    ensures var badTopic := o.topic != Off && !v.topicAllowed;
            var badRel := o.message != Off && NeedsRelCheck(m.topic, centre) && !v.validRel;
            var badSchema := o.message != Off && !v.schemaValid;
            var badMetadata := o.metadata != Off && v.isData && !v.registered;
            var afterTopic := !(badTopic && o.topic == DiscardOnFailure);
            var afterMessage := afterTopic && !badRel && !(badSchema && o.message == DiscardOnFailure);
            && (TopicFails(o, v) <==> badTopic)
            && (SchemaFails(o, v, m, centre) <==> afterTopic && !badRel && badSchema)
            && (MetadataFails(o, v, m, centre) <==> afterMessage && badMetadata)
            && (Stops(o, v, m, centre) <==> !afterMessage || (badMetadata && o.metadata == DiscardOnFailure))
  {
  }

  // ---- The pipeline -----------------------------------------------------------------

  class Pipeline {
    const centre: string
    const options: Policy
    const gate: Gates.Gate<Msg>
    /** The shared Redis, and the TTL dedup keys get. */
    const rdb: Direct.Redis
    const dedupTtl: int
    var isPrimary: bool
    var pubConnected: bool

    var received: nat
    var invalidTopic: nat
    var invalidFormat: nat
    var noMetadata: nat
    /** Calls of Monitor.Report that were published, and calls of Publish, in order. */
    var reports: seq<Report>
    var published: seq<Msg>

    /** Without overlapping setter calls the gate is open exactly when both conditions hold. */
    ghost predicate Valid()
      reads this, gate
    {
      gate.Valid() && (gate.state.Open? <==> isPrimary && pubConnected)
    }

    constructor (centre: string, options: Policy, maxQueueBacklog: int, dedupTtl: int, rdb: Direct.Redis, now: int)
      ensures Valid() && fresh(gate) && !isPrimary && !pubConnected
      ensures gate.maxAge == dedupTtl && gate.maxLen == maxQueueBacklog
      ensures gate.spec == Gates.Fresh() && gate.clock == now
      ensures this.centre == centre && this.options == options && reports == [] && published == []
      ensures this.rdb == rdb && this.dedupTtl == dedupTtl
      ensures received == 0 && invalidTopic == 0 && invalidFormat == 0 && noMetadata == 0
    {
      this.centre, this.options, this.rdb, this.dedupTtl := centre, options, rdb, dedupTtl;
      isPrimary, pubConnected := false, false;
      received, invalidTopic, invalidFormat, noMetadata := 0, 0, 0, 0;
      reports, published := [], [];
      gate := new Gates.Gate(maxQueueBacklog, dedupTtl, now);
    }

    method ApplyGateState(open: bool, now: int)
      requires gate.Valid() && gate.clock <= now
      modifies gate
      ensures gate.Valid() && gate.spec == if open then Gates.Release(old(gate.spec), now, gate.maxAge)
                                           else Gates.Hold(old(gate.spec))
    {
      if open {
        gate.Open(now);
      } else {
        gate.Queue();
      }
    }

    method SetPrimary(isPrimary: bool, now: int)
      requires Valid() && gate.clock <= now
      modifies this`isPrimary, gate
      ensures Valid() && this.isPrimary == isPrimary
      ensures gate.spec == if isPrimary && pubConnected then Gates.Release(old(gate.spec), now, gate.maxAge)
                           else Gates.Hold(old(gate.spec))
    {
      this.isPrimary := isPrimary;
      var open := this.isPrimary && pubConnected;
      ApplyGateState(open, now);
    }

    method SetPubConnected(connected: bool, now: int)
      requires Valid() && gate.clock <= now
      modifies this`pubConnected, gate
      ensures Valid() && pubConnected == connected
      ensures gate.spec == if isPrimary && connected then Gates.Release(old(gate.spec), now, gate.maxAge)
                           else Gates.Hold(old(gate.spec))
    {
      pubConnected := connected;
      var open := isPrimary && pubConnected;
      ApplyGateState(open, now);
    }

    method HandleMessage(topic: string, payload: Json, now: int)
      requires Valid() && gate.clock <= now
      modifies gate
      ensures Valid()
      ensures gate.spec == Gates.Arrive(old(gate.spec), Msg(topic, payload), now, gate.maxLen, gate.maxAge)
    {
      gate.Handle(Msg(topic, payload), now);
    }

    method Raise(kind: Kind, topic: string)
      modifies this`reports
      ensures reports == old(reports) + Raised(kind, true, topic, centre)
    {
      if Contains(topic, "monitor") {
        return;
      }
      reports := reports + [Report(kind, ReportTopic(topic, centre))];
    }

    method CheckTopic(m: Msg, v: Verdicts) returns (stop: bool)
      modifies this`invalidTopic, this`reports
      ensures stop <==> options.topic == DiscardOnFailure && !v.topicAllowed
      ensures invalidTopic == old(invalidTopic) + if options.topic != Off && !v.topicAllowed then 1 else 0
      ensures reports == old(reports) + TopicReports(options, v, m, centre)
    {
      stop := false;
      if !options.topic.Off? {
        if !v.topicAllowed {
          invalidTopic := invalidTopic + 1;
          Raise(TopicFailure, m.topic);
          if options.topic.DiscardOnFailure? {
            return true;
          }
        }
      }
    }

    method CheckMessage(m: Msg, v: Verdicts) returns (stop: bool)
      modifies this`invalidFormat, this`reports
      ensures var badRel := options.message != Off && NeedsRelCheck(m.topic, centre) && !v.validRel;
              var badSchema := options.message != Off && !v.schemaValid;
              && (stop <==> badRel || (badSchema && options.message == DiscardOnFailure))
              && invalidFormat == old(invalidFormat) + (if badSchema && !badRel then 1 else 0)
              && reports == old(reports) + Raised(SchemaFailure, badRel || badSchema, m.topic, centre)
    {
      stop := false;
      if !options.message.Off? {
        if NeedsRelCheck(m.topic, centre) && !v.validRel {
          Raise(SchemaFailure, m.topic);
          return true;
        }
        if !v.schemaValid {
          invalidFormat := invalidFormat + 1;
          Raise(SchemaFailure, m.topic);
          if options.message.DiscardOnFailure? {
            return true;
          }
        }
      }
    }

    method CheckMetadata(m: Msg, v: Verdicts) returns (stop: bool)
      modifies this`noMetadata, this`reports
      ensures var bad := options.metadata != Off && v.isData && !v.registered;
              && (stop <==> bad && options.metadata == DiscardOnFailure)
              && noMetadata == old(noMetadata) + (if bad then 1 else 0)
              && reports == old(reports) + Raised(MetadataFailure, bad, m.topic, centre)
    {
      stop := false;
      if !options.metadata.Off? && v.isData {
        if !v.registered {
          noMetadata := noMetadata + 1;
          Raise(MetadataFailure, m.topic);
          if options.metadata.DiscardOnFailure? {
            return true;
          }
        }
      }
    }

    /** process. Dedup is asked exactly when no check stopped the message and it has an id, and
        its keys change in no other way. The message is published exactly when no check stopped
        it and dedup did not say "seen", so also when dedup failed; in particular a slot that
        was taken is never taken in vain. `fault` is what happens to the dedup call.

        The last clauses say the same by nothing but the settings and the verdicts. A check
        counts and reports when it is on, its verdict is bad and no earlier rule discarded the
        message. A bad verdict discards when the check is set to discard; under Verify the
        message goes on, but for the links-rel rule; a check that is off has no effect. */
    method Process(m: Msg, v: Verdicts, now: int, fault: Direct.Fault)
      modifies this`received, this`invalidTopic, this`invalidFormat, this`noMetadata, this`reports, this`published, rdb
      ensures received == old(received) + 1
      ensures rdb.keys == if Consults(options, v, m, centre)
                          then Direct.AfterDirect(old(rdb.keys), ExtractId(m.payload), now, dedupTtl, fault)
                          else old(rdb.keys)
      ensures var reply := ReplyOf(Direct.SeenDirect(old(rdb.keys), ExtractId(m.payload), now, fault));
              published
              == old(published) + if Publishes(options, v, m, centre, reply) then [Outgoing(options, m)] else []
      ensures rdb.keys != old(rdb.keys) ==> published == old(published) + [Outgoing(options, m)]
      ensures var id := ExtractId(m.payload);
              var badTopic := options.topic != Off && !v.topicAllowed;
              var badRel := options.message != Off && NeedsRelCheck(m.topic, centre) && !v.validRel;
              var badSchema := options.message != Off && !v.schemaValid;
              var badMetadata := options.metadata != Off && v.isData && !v.registered;
              var afterTopic := !(badTopic && options.topic == DiscardOnFailure);
              var afterMessage := afterTopic && !badRel && !(badSchema && options.message == DiscardOnFailure);
              var goesOn := afterMessage && !(badMetadata && options.metadata == DiscardOnFailure);
              var seen := id != "" && fault.NoFault? && Direct.Held(old(rdb.keys), id, now);
              && invalidTopic == old(invalidTopic) + (if badTopic then 1 else 0)
              && invalidFormat == old(invalidFormat) + (if afterTopic && !badRel && badSchema then 1 else 0)
              && noMetadata == old(noMetadata) + (if afterMessage && badMetadata then 1 else 0)
              && reports == old(reports) + Raised(TopicFailure, badTopic, m.topic, centre)
                            + Raised(SchemaFailure, afterTopic && (badRel || badSchema), m.topic, centre)
                            + Raised(MetadataFailure, afterMessage && badMetadata, m.topic, centre)
              && published == old(published) + (if goesOn && !seen then [Outgoing(options, m)] else [])
              && rdb.keys == if goesOn && id != ""
                             then Direct.AfterDirect(old(rdb.keys), id, now, dedupTtl, fault) else old(rdb.keys)
      ensures v.topicAllowed && v.validRel && v.schemaValid && (v.registered || !v.isData) ==>
                && invalidTopic == old(invalidTopic) && invalidFormat == old(invalidFormat)
                && noMetadata == old(noMetadata) && reports == old(reports)
                && var id := ExtractId(m.payload);
                   var seen := id != "" && fault.NoFault? && Direct.Held(old(rdb.keys), id, now);
                   published == old(published) + if seen then [] else [Outgoing(options, m)]
      ensures || (options.topic == DiscardOnFailure && !v.topicAllowed)
              || (options.message == DiscardOnFailure && !v.schemaValid)
              || (options.metadata == DiscardOnFailure && v.isData && !v.registered) ==>
                published == old(published) && rdb.keys == old(rdb.keys)
    {
      RulesByVerdict(options, v, m, centre);
      received := received + 1;
      var stop := RunChecks(m, v);
      if !stop {
        DedupAndPublish(m, now, fault);
      }
    }

    /** The rest of process, behind the checks. */
    method DedupAndPublish(m: Msg, now: int, fault: Direct.Fault)
      modifies this`published, rdb
      ensures var id := ExtractId(m.payload);
              var seen := id != "" && fault.NoFault? && Direct.Held(old(rdb.keys), id, now);
              && published == old(published) + (if seen then [] else [Outgoing(options, m)])
              && (rdb.keys != old(rdb.keys) ==> !seen)
              && rdb.keys == if id == "" then old(rdb.keys)
                             else Direct.AfterDirect(old(rdb.keys), id, now, dedupTtl, fault)
    {
      var id := ExtractId(m.payload);
      if id != "" {
        var answer := rdb.SetNX(id, now, dedupTtl, fault);
        if answer.seen {
          return;
        }
      }
      var payload := m.payload;
      if options.deleteContent {
        payload := Strip(payload);
      }
      published := published + [Msg(m.topic, payload)];
    }

    /** The three checks in their order. */
    method RunChecks(m: Msg, v: Verdicts) returns (stop: bool)
      modifies this`invalidTopic, this`invalidFormat, this`noMetadata, this`reports
      ensures reports == old(reports) + Reports(options, v, m, centre)
      ensures var badTopic := options.topic != Off && !v.topicAllowed;
              var badRel := options.message != Off && NeedsRelCheck(m.topic, centre) && !v.validRel;
              var badSchema := options.message != Off && !v.schemaValid;
              var badMetadata := options.metadata != Off && v.isData && !v.registered;
              var afterTopic := !(badTopic && options.topic == DiscardOnFailure);
              var afterMessage := afterTopic && !badRel && !(badSchema && options.message == DiscardOnFailure);
              && (stop <==> !(afterMessage && !(badMetadata && options.metadata == DiscardOnFailure)))
              && invalidTopic == old(invalidTopic) + (if badTopic then 1 else 0)
              && invalidFormat == old(invalidFormat) + (if afterTopic && !badRel && badSchema then 1 else 0)
              && noMetadata == old(noMetadata) + (if afterMessage && badMetadata then 1 else 0)
              && reports == old(reports) + Raised(TopicFailure, badTopic, m.topic, centre)
                            + Raised(SchemaFailure, afterTopic && (badRel || badSchema), m.topic, centre)
                            + Raised(MetadataFailure, afterMessage && badMetadata, m.topic, centre)
    {
      RulesByVerdict(options, v, m, centre);
      stop := CheckTopic(m, v);
      if stop {
        return;
      }
      stop := CheckMessage(m, v);
      if stop {
        return;
      }
      stop := CheckMetadata(m, v);
    }
  }
}
