/**
 The decision mailbox between an inbox process and the resident that owns a run's log
 (cmd/arxi/scheduler.go appendExternalDecision, importExternalDecisions; the exact decision is
 internal/inbox/inbox.go decideExactStore). Requests and results are files put in place by an
 atomic rename. Requesters publish, wait, give up and clean up; the importer reads, decides,
 writes the result and removes the request; anybody can die between any two steps.

 Deciding and appending is one action, as in the code: both happen under the resident's store.
 */
module Mailbox {
  import opened Bytes
  import opened Reducers

  type Id = nat
  type Name = nat

  datatype Decision = Approve | Reject | Answer | Unknown
  datatype Kind = ToolApproval | Question | OtherKind

  /** genuine: an inbox.replied event with a human source. */
  datatype Request = Request(item: Id, decision: Decision, text: string, principal: string, exact: bool, genuine: bool)

  datatype Event =
    | Reply(item: Id, decision: Decision, text: string)
    | Authorized(item: Id, granted: bool)
    | Lapsed(item: Id)        // authorization.expired
    | Driven(what: nat)

  datatype Code = NotFound | AlreadyAnswered | WrongKind | RunOver | OtherCode
  datatype Result = Seq(n: nat) | Refused(code: Code)

  /** expired: the item's authorization ran out. */
  datatype Item = Item(kind: Kind, replied: bool, expired: bool)

  /** How the authorization behind an approval stands for a principal at a time. */
  datatype Grant = Bound | Unbound | BadPrincipal | Due

  /** The kernel, and the two views of its state the decision looks at. */
  datatype Desk<!S> = Desk(kernel: Reducer<S, Event>, item: (S, Id) -> Option<Item>,
                           grant: (S, Id, string, nat) -> Grant)

  // ------------------------------------------------------------------ the decision

  datatype Verdict = Accept(events: seq<Event>) | Expire | Refuse(code: Code)

  predicate BlankText(text: string) {
    forall i | 0 <= i < |text| :: text[i] == ' ' || '\t' <= text[i] <= '\r'
  }

  function ReplyOf(r: Request): Event {
    Reply(r.item, r.decision, r.text)
  }

  /** validDecision and decideExactStore. */
  function DecideExact<S>(d: Desk<S>, s: S, r: Request, now: nat): Verdict {
    if r.decision == Unknown || (r.decision != Approve && BlankText(r.text)) then Refuse(OtherCode)
    else
      match d.item(s, r.item)
      case None => Refuse(NotFound)
      case Some(item) =>
        if item.replied then Refuse(if item.expired then OtherCode else AlreadyAnswered)
        else if (if r.decision ==
            Answer then item.kind != Question else item.kind != ToolApproval) then Refuse(WrongKind)
        else if Terminal(d.kernel.status(s)) then Refuse(RunOver)
        else if item.kind != ToolApproval then Accept([ReplyOf(r)])
        else
          match d.grant(s, r.item, r.principal, now)
          case Bound => Accept([Authorized(r.item, r.decision == Approve), ReplyOf(r)])
          case Due => Expire
          case _ => Refuse(OtherCode)
  }

  /** validateExternalDecision. */
  function DecideLoose<S>(d: Desk<S>, s: S, r: Request): Verdict {
    if !r.genuine || r.decision == Unknown then Refuse(OtherCode)
    else
      match d.item(s, r.item)
      case None => Refuse(NotFound)
      case Some(item) =>
        if item.replied then Refuse(AlreadyAnswered)
        else if Terminal(d.kernel.status(s)) then Refuse(RunOver)
        else if r.decision != Approve && BlankText(r.text) then Refuse(OtherCode)
        else if (item.kind == ToolApproval) == (r.decision == Answer) then Refuse(WrongKind)
        else Accept([ReplyOf(r)])
  }

  function Decide<S>(d: Desk<S>, s: S, r: Request, now: nat): Verdict {
    if r.exact then DecideExact(d, s, r, now) else DecideLoose(d, s, r)
  }

  /** Neither decision path has anything left to accept for this item. */
  predicate Settled<S>(d: Desk<S>, s: S, id: Id) {
    Terminal(d.kernel.status(s)) || (d.item(s, id).Some? && d.item(s, id).value.replied)
  }

  /**
   What is used of the kernel: a reply settles its item (decide.go:1037-1043, or :35 on a
   terminal run), and nothing unsettles one (replied is only ever set to true).
   */
  ghost predicate Lawful<S(!new)>(d: Desk<S>) {
    && (forall s, id: Id, dec, text :: d.item(s, id).Some? ==> Settled(d, d.kernel.decide(s, Reply(id, dec, text)), id))
    && (forall s, id: Id, e :: Settled(d, s, id) ==> Settled(d, d.kernel.decide(s, e), id))
    && (forall s, id: Id, e :: d.item(s, id).Some? ==> d.item(d.kernel.decide(s, e), id).Some?)
  }

  /** A decision that says what its kind of question asks, with a reason or text where one is due. */
  predicate Fits(r: Request, kind: Kind) {
    && r.decision != Unknown && (r.decision != Approve ==> !BlankText(r.text))
    && (r.decision == Answer <==> kind != ToolApproval)
    && (if r.exact then kind != OtherKind else r.genuine)
  }

  /** The authorization behind an exact approval, as the kernel has it. */
  function Authority<S>(d: Desk<S>, s: S, r: Request, now: nat): Grant {
    if r.exact && d.item(s, r.item).Some? && d.item(s, r.item).value.kind == ToolApproval
    then d.grant(s, r.item, r.principal, now) else Bound
  }

  /**
   Whatever order the two paths check things in, a reply is accepted if and only if its item
   exists and is open, the decision fits it and its authority holds; an authority that ran out is
   recorded under just the same conditions; and a fitting decision on an answered item is told so.
   */
  lemma {:induction false} AcceptedIff<S>(d: Desk<S>, s: S, r: Request, now: nat)
    ensures var v, item := Decide(d, s, r, now), d.item(s, r.item);
            var ready := item.Some? && !Settled(d, s, r.item) && Fits(r, item.value.kind);
            && (v.Accept? <==> ready && Authority(d, s, r, now) == Bound)
            && (v.Expire? <==> ready && Authority(d, s, r, now) == Due)
            && (item.Some? && item.value.replied && !item.value.expired && Fits(r, item.value.kind) ==>
                  v == Refuse(AlreadyAnswered))
  {
  }

  /** The reply comes last in what is appended, behind its authorization if it has one. */
  lemma {:induction false} AcceptedWasOpen<S>(d: Desk<S>, s: S, r: Request, now: nat)
    ensures var v := Decide(d, s, r, now);
            && (v.Accept? ==> !Settled(d, s, r.item) && d.item(s, r.item).Some?
                              && (v.events == [ReplyOf(r)]
                                    || v.events == [Authorized(r.item, r.decision == Approve), ReplyOf(r)]))
            && (v.Expire? ==> !Settled(d, s, r.item))
  {
  }

  // ------------------------------------------------------------------ the machine

  /** A requester leaving has still to remove the result file, then the request file. */
  datatype Phase =
    | Idle
    | Waiting
    | Leaving(got: Option<Result>)
    | LeavingMore(got: Option<Result>)
    | Gone(got: Option<Result>)

  /** name: <item>-<pid>-<counter>. */
  datatype Requester = Requester(name: Name, request: Request, phase: Phase)

  datatype Importer = Scanning | Read(name: Name, request: Request) | Decided(name: Name,
                                      result: Result) | Wrote(name: Name)

  datatype World = World(log: seq<Event>, requests: map<Name, Request>, results: map<Name, Result>,
                         requesters: seq<Requester>, importer: Importer)

  datatype Action =
    | Publish(p: nat)        // rename of the request file into place
    | Collect(p: nat)        // a poll that finds the result file
    | GiveUp(p: nat)         // the deadline
    | Cleanup(p: nat)        // the two deferred removes, result first
    | Die(p: nat)
    | Pick(name: Name)       // the importer reads a request file
    | Judge(now: nat)        // decides and appends under the store
    | WriteResult
    | RemoveRequest
    | ImporterDies           // or returns an error
    | Drive(what: nat)       // the resident appends something else

  function SetPhase(w: World, p: nat, phase: Phase): World
    requires p < |w.requesters|
  {
    w.(requesters := w.requesters[p := w.requesters[p].(phase := phase)])
  }

  function Judged<S>(d: Desk<S>, w: World, now: nat): World
    requires w.importer.Read?
  {
    var r := w.importer.request;
    match Decide(d, Fold(d.kernel, d.kernel.initial, w.log), r, now)
    case Accept(events) =>
      w.(log := w.log + events, importer := Decided(w.importer.name, Seq(|w.log| + |events|)))
    case Expire =>
      w.(log := w.log + [Lapsed(r.item)], importer := Decided(w.importer.name, Refused(OtherCode)))
    case Refuse(code) =>
      w.(importer := Decided(w.importer.name, Refused(code)))
  }

  function Requested(w: World, p: nat, a: Action): World
    requires p < |w.requesters|
  {
    var me := w.requesters[p];
    match (a, me.phase)
    case (Publish(_), Idle) => SetPhase(w, p, Waiting).(requests := w.requests[me.name := me.request])
    case (Collect(_), Waiting) => if me.name in w.results then SetPhase(w, p, Leaving(Some(w.results[me.name]))) else w
    case (GiveUp(_), Waiting) => SetPhase(w, p, Leaving(None))
    case (Cleanup(_), Leaving(got)) => SetPhase(w, p, LeavingMore(got)).(results := w.results - {me.name})
    case (Cleanup(_), LeavingMore(got)) => SetPhase(w, p, Gone(got)).(requests := w.requests - {me.name})
    case (Die(_), Idle) => SetPhase(w, p, Gone(None))
    case (Die(_), Waiting) => SetPhase(w, p, Gone(None))
    case (Die(_), Leaving(got)) => SetPhase(w, p, Gone(got))
    case (Die(_), LeavingMore(got)) => SetPhase(w, p, Gone(got))
    case _ => w
  }

  /** One action; one that is not enabled changes nothing. */
  function Next<S>(d: Desk<S>, w: World, a: Action): World {
    match a
    case Pick(name) =>
      if w.importer.Scanning? && name in w.requests then w.(importer := Read(name, w.requests[name])) else w
    case Judge(now) => if w.importer.Read? then Judged(d, w, now) else w
    case WriteResult =>
      if w.importer.Decided?
      then w.(results := w.results[w.importer.name := w.importer.result], importer := Wrote(w.importer.name)) else w
    case RemoveRequest =>
      if w.importer.Wrote? then w.(requests := w.requests - {w.importer.name}, importer := Scanning) else w
    case ImporterDies => w.(importer := Scanning)
    case Drive(what) => w.(log := w.log + [Driven(what)])
    case _ => if a.p < |w.requesters| then Requested(w, a.p, a) else w
  }

  function Run<S>(d: Desk<S>, w: World, actions: seq<Action>): World
    decreases |actions|
  {
    if actions == [] then w else Run(d, Next(d, w, actions[0]), actions[1..])
  }

  predicate Fresh(w: World) {
    && w.requests == map[] && w.results == map[] && w.importer == Scanning
    && (forall p | 0 <= p < |w.requesters| :: w.requesters[p].phase == Idle)
  }

  /** What the process id and the counter in a name are for. */
  predicate DistinctNames(w: World) {
    forall p, q | 0 <= p < q < |w.requesters| :: w.requesters[p].name != w.requesters[q].name
  }

  // ------------------------------------------------------------------ one pass of the importer

  function Names(entries: seq<Name>): set<Name> {
    set name | name in entries
  }

  /** importExternalDecisions under the resident's store, nobody else touching the files. */
  class Spool<S> {
    const desk: Desk<S>
    var log: seq<Event>
    var requests: map<Name, Request>
    var results: map<Name, Result>

    constructor (desk: Desk<S>, log: seq<Event>, requests: map<Name, Request>)
      ensures this.desk == desk && this.log == log && this.requests == requests && results == map[]
    {
      this.desk, this.log, this.requests, results := desk, log, requests, map[];
    }

    /** One request: judged, answered, removed. */
    method Take(name: Name, now: nat) returns (accepted: bool)
      requires name in requests
      modifies this
      ensures requests == old(requests) - {name}
      ensures name in results && results == old(results)[name := results[name]]
      ensures if accepted then results[name] == Seq(|log|) else results[name].Refused?
      ensures old(log) <= log
      ensures accepted ==> |log| > |old(log)| && log[|log| - 1] == ReplyOf(old(requests)[name])
      ensures forall j | |old(log)| <= j < |log| && log[j].Reply? :: accepted && j == |log| - 1
    {
      var request := requests[name];
      var state := Fold(desk.kernel, desk.kernel.initial, log);
      var verdict := Decide(desk, state, request, now);
      AcceptedWasOpen(desk, state, request, now);
      hide Decide, Fold, Settled;
      var result := Refused(OtherCode);
      accepted := verdict.Accept?;
      match verdict {
        case Accept(events) =>
          log := log + events;
          result := Seq(|log|);
        case Expire =>
          log := log + [Lapsed(request.item)];
        case Refuse(code) =>
          result := Refused(code);
      }
      results := results[name := result];
      requests := requests - {name};
    }

    /**
     entries: the .request files, in directory order. Each one taken is judged on the log as it is
     by then, answered and removed; the pass ends after the first one it could append.
     */
    method Import(entries: seq<Name>, now: nat) returns (imported: bool, taken: nat)
      requires forall i | 0 <= i < |entries| :: entries[i] in requests
      requires forall i, j | 0 <= i < j < |entries| :: entries[i] != entries[j]
      modifies this
      ensures taken <= |entries| && (!imported ==> taken == |entries|)
      ensures requests == old(requests) - Names(entries[..taken])
      ensures results - Names(entries[..taken]) == old(results) - Names(entries[..taken])
      ensures forall i | 0 <= i < taken :: entries[i] in results
               && (results[entries[i]].Seq? <==> imported && i == taken - 1)
      ensures old(log) <= log
      ensures imported ==> taken > 0 && results[entries[taken - 1]] == Seq(|log|) && |log| > |old(log)|
                           && log[|log| - 1] == ReplyOf(old(requests)[entries[taken - 1]])
      ensures forall j | |old(log)| <= j < |log| && log[j].Reply? :: imported && j == |log| - 1
    {
      imported, taken := false, 0;
      while taken < |entries| && !imported
        invariant taken <= |entries| && old(log) <= log
        invariant requests == old(requests) - Names(entries[..taken])
        invariant results - Names(entries[..taken]) == old(results) - Names(entries[..taken])
        invariant forall i | 0 <= i < taken :: entries[i] in results
                                               && (results[entries[i]].Seq? <==> imported && i == taken - 1)
        invariant imported ==> taken > 0 && results[entries[taken - 1]] == Seq(|log|) && |log| > |old(log)|
                               && log[|log| - 1] == ReplyOf(old(requests)[entries[taken - 1]])
        invariant forall j | |old(log)| <= j < |log| && log[j].Reply? :: imported && j == |log| - 1
      {
        var name := entries[taken];
        assert entries[..taken + 1] == entries[..taken] + [name];
        assert Names(entries[..taken + 1]) == Names(entries[..taken]) + {name};
        ghost var was, past := results, Names(entries[..taken]);
        imported := Take(name, now);
        assert results - (past + {name}) == (was - past) - {name} == (old(results) - past) - {name};
        taken := taken + 1;
      }
    }
  }

  // ------------------------------------------------------------------ at most one reply

  predicate OneReplyEach(log: seq<Event>) {
    forall i, j | 0 <= i < j < |log| && log[i].Reply? && log[j].Reply? :: log[i].item != log[j].item
  }

  ghost predicate RepliesSettle<S>(d: Desk<S>, log: seq<Event>) {
    forall i | 0 <= i < |log| && log[i].Reply? :: Settled(d, Fold(d.kernel, d.kernel.initial, log), log[i].item)
  }

  ghost predicate LogInv<S>(d: Desk<S>, log: seq<Event>) {
    OneReplyEach(log) && RepliesSettle(d, log)
  }

  lemma {:induction false} AppendOther<S(!new)>(d: Desk<S>, log: seq<Event>, e: Event)
    requires Lawful(d) && LogInv(d, log) && !e.Reply?
    ensures LogInv(d, log + [e])
  {
    FoldAppend(d.kernel, d.kernel.initial, log, e);
    hide Fold, Settled;
    var more := log + [e];
    forall i | 0 <= i < |more|
        && more[i].Reply? ensures Settled(d, Fold(d.kernel, d.kernel.initial, more), more[i].item) {
      assert more[i] == log[i];
    }
  }

  lemma {:induction false} AppendReply<S(!new)>(d: Desk<S>, log: seq<Event>, e: Event)
    requires Lawful(d) && LogInv(d, log) && e.Reply? && d.item(Fold(d.kernel, d.kernel.initial, log), e.item).Some?
    requires forall i | 0 <= i < |log| && log[i].Reply? :: log[i].item != e.item
    ensures LogInv(d, log + [e])
  {
    FoldAppend(d.kernel, d.kernel.initial, log, e);
    hide Fold, Settled;
    var more := log + [e];
    assert Settled(d, Fold(d.kernel, d.kernel.initial, more), e.item);
    forall i | 0 <= i < |more|
        && more[i].Reply? ensures Settled(d, Fold(d.kernel, d.kernel.initial, more), more[i].item) {
      assert i < |log| ==> more[i] == log[i];
    }
  }

  lemma {:induction false} JudgedKeepsLog<S(!new)>(d: Desk<S>, w: World, now: nat)
    requires Lawful(d) && LogInv(d, w.log) && w.importer.Read?
    ensures LogInv(d, Judged(d, w, now).log)
  {
    var r := w.importer.request;
    var s := Fold(d.kernel, d.kernel.initial, w.log);
    var v := Decide(d, s, r, now);
    AcceptedWasOpen(d, s, r, now);
    hide Decide, Fold, Settled;
    match v
    case Refuse(_) =>
    case Expire => AppendOther(d, w.log, Lapsed(r.item));
    case Accept(events) =>
      assert forall i | 0 <= i < |w.log| && w.log[i].Reply? :: w.log[i].item != r.item;
      if events == [ReplyOf(r)] {
        AppendReply(d, w.log, ReplyOf(r));
      } else {
        var a := Authorized(r.item, r.decision == Approve);
        AppendOther(d, w.log, a);
        FoldAppend(d.kernel, d.kernel.initial, w.log, a);
        AppendReply(d, w.log + [a], ReplyOf(r));
        assert w.log + [a] + [ReplyOf(r)] == w.log + events;
      }
  }

  lemma {:induction false} StepKeepsLog<S(!new)>(d: Desk<S>, w: World, a: Action)
    requires Lawful(d) && LogInv(d, w.log)
    ensures LogInv(d, Next(d, w, a).log) && w.log <= Next(d, w, a).log
  {
    hide LogInv;
    if a.Judge? && w.importer.Read? {
      JudgedKeepsLog(d, w, a.now);
    } else if a.Drive? {
      AppendOther(d, w.log, Driven(a.what));
    }
    hide Decide;
  }

  lemma {:induction false} RunKeepsLog<S(!new)>(d: Desk<S>, w: World, actions: seq<Action>)
    requires Lawful(d) && LogInv(d, w.log)
    ensures LogInv(d, Run(d, w, actions).log) && w.log <= Run(d, w, actions).log
    decreases |actions|
  {
    if actions != [] {
      StepKeepsLog(d, w, actions[0]);
      hide Next, LogInv;
      RunKeepsLog(d, Next(d, w, actions[0]), actions[1..]);
    }
  }

  /**
   However requesters, importer, deadlines and deaths interleave, the log never holds two replies
   to one question. Nothing is assumed about names, requests or results; the log may already hold
   answered questions.
   */
  lemma {:induction false} AtMostOneReply<S(!new)>(d: Desk<S>, w: World, actions: seq<Action>)
    requires Lawful(d) && LogInv(d, w.log)
    ensures OneReplyEach(Run(d, w, actions).log)
  {
    RunKeepsLog(d, w, actions);
  }

  // ------------------------------------------------------------------ whose reply it is

  /** The sequence numbers somewhere on their way to requester p, or with it. */
  predicate Told(w: World, p: nat, n: nat)
    requires p < |w.requesters|
  {
    var me := w.requesters[p];
    || (me.name in w.results && w.results[me.name] == Seq(n))
    || w.importer == Decided(me.name, Seq(n))
    || Holds(me.phase, n)
  }

  predicate Holds(phase: Phase, n: nat) {
    (phase.Leaving? || phase.LeavingMore? || phase.Gone?) && phase.got == Some(Seq(n))
  }

  predicate OwnReply(w: World, p: nat, n: nat)
    requires p < |w.requesters|
  {
    0 < n <= |w.log| && w.log[n - 1] == ReplyOf(w.requesters[p].request)
  }

  /** What the files and the importer say about requester p is what p asked. */
  predicate OwnRequest(w: World, p: nat)
    requires p < |w.requesters|
  {
    var me := w.requesters[p];
    && (me.name in w.requests ==> ReplyOf(w.requests[me.name]) == ReplyOf(me.request))
    && (w.importer.Read? && w.importer.name == me.name ==> ReplyOf(w.importer.request) == ReplyOf(me.request))
  }

  /** A name may only be used again for the very same reply. */
  predicate SameNameSameReply(w: World) {
    forall p, q | 0 <= p < |w.requesters| && 0 <= q < |w.requesters| && w.requesters[p].name == w.requesters[q].name ::
      ReplyOf(w.requesters[p].request) == ReplyOf(w.requesters[q].request)
  }

  ghost predicate MailInv(w: World) {
    && SameNameSameReply(w)
    && (forall p | 0 <= p < |w.requesters| :: OwnRequest(w, p))
    && (forall p, n: nat | 0 <= p < |w.requesters| && Told(w, p, n) :: OwnReply(w, p, n))
  }

  /** No number is on its way to two requesters. */
  ghost predicate OneOwner(w: World) {
    forall p, q, n: nat | 0 <= p < |w.requesters| && 0 <= q < |w.requesters| && p != q
        && Told(w, p, n) :: !Told(w, q, n)
  }

  /** The only new number is the head, told to whoever the request being judged is from. */
  predicate Fresher<S>(d: Desk<S>, w: World, a: Action, p: nat, n: nat)
    requires p < |w.requesters|
  {
    a.Judge? && w.importer.Read? && w.importer.name == w.requesters[p].name && n == |Next(d, w, a).log| > |w.log|
    && Next(d, w, a).log[n - 1] == ReplyOf(w.importer.request)
  }

  lemma {:induction false} JudgedTells<S>(d: Desk<S>, w: World, now: nat)
    requires w.importer.Read?
    ensures var w' := Judged(d, w, now);
            && w.log <= w'.log && w' == w.(log := w'.log, importer := w'.importer)
            && w'.importer.Decided? && w'.importer.name == w.importer.name
            && (w'.importer.result.Seq? ==>
                  w'.importer.result.n == |w'.log| > |w.log| && w'.log[|w'.log| - 1] == ReplyOf(w.importer.request))
  {
    AcceptedWasOpen(d, Fold(d.kernel, d.kernel.initial, w.log), w.importer.request, now);
    hide Decide, Fold, Settled;
  }

  lemma {:induction false} NamesStay<S>(d: Desk<S>, w: World, a: Action)
    ensures var w' := Next(d, w, a);
            |w'.requesters| == |w.requesters| && w.log <= w'.log
            && forall p | 0 <= p < |w.requesters| :: w'.requesters[p].name == w.requesters[p].name
                  && w'.requesters[p].request == w.requesters[p].request
  {
    if a.Judge? && w.importer.Read? {
      JudgedTells(d, w, a.now);
    }
    hide Judged, Decide, Fold;
  }

  lemma {:induction false} ToldStep<S>(d: Desk<S>, w: World, a: Action, p: nat, n: nat)
    requires p < |w.requesters| && p < |Next(d, w, a).requesters|
    ensures Told(Next(d, w, a), p, n) ==> Told(w, p, n) || Fresher(d, w, a, p, n)
  {
    if a.Judge? && w.importer.Read? {
      JudgedTells(d, w, a.now);
    }
    hide Judged, Decide, Fold;
  }

  lemma {:induction false} OwnRequestStep<S>(d: Desk<S>, w: World, a: Action, p: nat)
    requires MailInv(w) && p < |w.requesters| && p < |Next(d, w, a).requesters|
    ensures OwnRequest(Next(d, w, a), p)
  {
    hide Judged, Decide, Fold, OwnReply, Told, ReplyOf;
    assert OwnRequest(w, p);
    if a.Judge? && w.importer.Read? {
      JudgedTells(d, w, a.now);
    }
  }

  lemma {:induction false} StepKeepsMail<S>(d: Desk<S>, w: World, a: Action)
    requires MailInv(w)
    ensures MailInv(Next(d, w, a))
  {
    var w' := Next(d, w, a);
    NamesStay(d, w, a);
    forall p | 0 <= p < |w'.requesters| ensures OwnRequest(w', p) {
      OwnRequestStep(d, w, a, p);
    }
    forall p, n: nat | 0 <= p < |w'.requesters| && Told(w', p, n) ensures OwnReply(w', p, n) {
      ToldStep(d, w, a, p, n);
      assert OwnRequest(w, p);
      hide Next, Told;
    }
    hide Next, Told, OwnRequest, OwnReply;
  }

  /** A number that is new is past every number told before. */
  lemma {:induction false} StepKeepsOwner<S>(d: Desk<S>, w: World, a: Action)
    requires MailInv(w) && DistinctNames(w) && OneOwner(w)
    ensures OneOwner(Next(d, w, a)) && DistinctNames(Next(d, w, a))
  {
    var w' := Next(d, w, a);
    NamesStay(d, w, a);
    forall p, q, n: nat | 0 <= p < |w'.requesters| && 0 <= q < |w'.requesters| && p != q
        && Told(w', p, n) ensures !Told(w', q, n) {
      ToldStep(d, w, a, p, n);
      ToldStep(d, w, a, q, n);
      assert w.requesters[p].name != w.requesters[q].name;
      assert (Told(w, p, n) ==> OwnReply(w, p, n)) && (Told(w, q, n) ==> OwnReply(w, q, n));
      hide Next, Told;
    }
    hide Next, Told, OwnReply;
  }

  predicate SameRequesters(w: World, w': World) {
    |w'.requesters| == |w.requesters|
    && forall p | 0 <= p < |w.requesters| :: w'.requesters[p].name == w.requesters[p].name
          && w'.requesters[p].request == w.requesters[p].request
  }

  lemma {:induction false} RunKeepsMail<S>(d: Desk<S>, w: World, actions: seq<Action>)
    requires MailInv(w)
    ensures MailInv(Run(d, w, actions)) && SameRequesters(w, Run(d, w, actions))
    ensures DistinctNames(w) && OneOwner(w) ==> OneOwner(Run(d, w, actions))
    decreases |actions|
  {
    hide Next, MailInv, OneOwner, DistinctNames;
    if actions != [] {
      StepKeepsMail(d, w, actions[0]);
      if DistinctNames(w) && OneOwner(w) {
        StepKeepsOwner(d, w, actions[0]);
      }
      NamesStay(d, w, actions[0]);
      RunKeepsMail(d, Next(d, w, actions[0]), actions[1..]);
    }
  }

  lemma {:induction false} FreshMail(w: World)
    requires Fresh(w) && SameNameSameReply(w)
    ensures MailInv(w) && OneOwner(w)
  {
  }

  /** Requester p came back with n, and its own reply is exactly there. */
  ghost predicate FindsItsReply(w: World, p: nat, n: nat)
    requires p < |w.requesters|
  {
    Holds(w.requesters[p].phase, n) ==> OwnReply(w, p, n)
  }

  /**
   With distinct names: a requester that comes back with a sequence number finds its own reply at
   exactly that position, and no other requester is ever told that number.
   */
  lemma {:induction false} OwnReplyAtItsNumber<S>(d: Desk<S>, w: World, actions: seq<Action>, p: nat, n: nat)
    requires Fresh(w) && DistinctNames(w) && p < |w.requesters|
    ensures var w' := Run(d, w, actions);
            SameRequesters(w, w') && FindsItsReply(w', p, n)
            && (Holds(w'.requesters[p].phase, n) ==>
                  forall q | 0 <= q < |w.requesters| && q != p :: !Holds(w'.requesters[q].phase, n))
  {
    FreshMail(w);
    RunKeepsMail(d, w, actions);
    var w' := Run(d, w, actions);
    assert Holds(w'.requesters[p].phase, n) ==> Told(w', p, n);
    forall q | 0 <= q < |w.requesters| && q != p
        && Holds(w'.requesters[p].phase, n) ensures !Holds(w'.requesters[q].phase, n) {
      assert !Told(w', q, n);
    }
  }

  // ------------------------------------------------------------------ limits

  function VerdictOn<S>(d: Desk<S>, log: seq<Event>, r: Request, now: nat): Verdict {
    Decide(d, Fold(d.kernel, d.kernel.initial, log), r, now)
  }

  /** p's request would be accepted on this log at some time, with or without an authorization record. */
  ghost predicate Acceptable<S>(d: Desk<S>, w: World, p: nat)
    requires p < |w.requesters|
  {
    exists now: nat :: VerdictOn(d, w.log, w.requesters[p].request, now).Accept?
  }

  lemma {:induction false} AcceptedEndsInReply<S>(d: Desk<S>, log: seq<Event>, r: Request, now: nat)
    requires VerdictOn(d, log, r, now).Accept?
    ensures var events := VerdictOn(d, log, r, now).events; events != [] && events[|events| - 1] == ReplyOf(r)
  {
    AcceptedWasOpen(d, Fold(d.kernel, d.kernel.initial, log), r, now);
    hide Decide;
  }

  /** Published by p and read by the importer. */
  function InHand(w: World, p: nat): World
    requires p < |w.requesters|
  {
    var me := w.requesters[p];
    SetPhase(w, p, Waiting).(requests := w.requests[me.name := me.request], importer := Read(me.name, me.request))
  }

  lemma {:induction false} StepTo<S>(d: Desk<S>, w: World, a: Action, w': World, rest: seq<Action>)
    requires Next(d, w, a) == w'
    ensures Run(d, w, [a] + rest) == Run(d, w', rest)
  {
    hide Next;
    assert ([a] + rest)[1..] == rest;
  }

  lemma {:induction false} PublishAndPick<S>(d: Desk<S>, w: World, p: nat, rest: seq<Action>)
    requires p < |w.requesters| && w.requesters[p].phase == Idle && w.importer.Scanning?
    ensures Run(d, w, [Publish(p)] + ([Pick(w.requesters[p].name)] + rest)) == Run(d, InHand(w, p), rest)
  {
    var name := w.requesters[p].name;
    var w1 := Next(d, w, Publish(p));
    assert Next(d, w1, Pick(name)) == InHand(w, p);
    StepTo(d, w, Publish(p), w1, [Pick(name)] + rest);
    StepTo(d, w1, Pick(name), InHand(w, p), rest);
  }

  /** The resident dies between the append and the result, and a successor reads the request again. */
  lemma {:induction false} DiesAfterAppend<S>(d: Desk<S>, w: World, name: Name, now: nat, events: seq<Event>,
                                              rest: seq<Action>)
    requires w.importer.Read? && w.importer.name == name && name in w.requests && w.requests[name] == w.importer.request
    requires VerdictOn(d, w.log, w.importer.request, now) == Accept(events)
    ensures Run(d, w, [Judge(now)] + ([ImporterDies] + ([Pick(name)] + rest))) ==
              Run(d, w.(log := w.log + events), rest)
  {
    hide Decide, Fold;
    var w1 := w.(log := w.log + events, importer := Decided(name, Seq(|w.log| + |events|)));
    StepTo(d, w, Judge(now), w1, [ImporterDies] + ([Pick(name)] + rest));
    StepTo(d, w1, ImporterDies, w1.(importer := Scanning), [Pick(name)] + rest);
    StepTo(d, w1.(importer := Scanning), Pick(name), w.(log := w.log + events), rest);
  }

  lemma {:induction false} RefusalReachesRequester<S>(d: Desk<S>, w: World, p: nat, now: nat, code: Code)
    requires w.importer.Read? && p < |w.requesters| && w.requesters[p].phase == Waiting
             && w.requesters[p].name == w.importer.name
    requires VerdictOn(d, w.log, w.importer.request, now) == Refuse(code)
    ensures var w' := Run(d, w, [Judge(now)] + ([WriteResult] + ([Collect(p)] + [])));
            w'.log == w.log && |w'.requesters| == |w.requesters|
                && w'.requesters[p].phase == Leaving(Some(Refused(code)))
  {
    hide Decide, Fold;
    var name := w.importer.name;
    var w1 := w.(importer := Decided(name, Refused(code)));
    var w2 := w1.(results := w1.results[name := Refused(code)], importer := Wrote(name));
    StepTo(d, w, Judge(now), w1, [WriteResult] + ([Collect(p)] + []));
    StepTo(d, w1, WriteResult, w2, [Collect(p)] + []);
    StepTo(d, w2, Collect(p), SetPhase(w2, p, Leaving(Some(Refused(code)))), []);
  }

  lemma {:induction false} AnsweredIsRefused<S(!new)>(d: Desk<S>, log: seq<Event>, r: Request, now: nat)
    requires Lawful(d) && VerdictOn(d, log, r, now).Accept?
    ensures VerdictOn(d, log + VerdictOn(d, log, r, now).events, r, now).Refuse?
  {
    var events := VerdictOn(d, log, r, now).events;
    AcceptedWasOpen(d, Fold(d.kernel, d.kernel.initial, log), r, now);
    AcceptedWasOpen(d, Fold(d.kernel, d.kernel.initial, log + events), r, now);
    hide Decide, Settled, Fold;
    var front := log + events[..|events| - 1];
    assert log + events == front + [ReplyOf(r)];
    if |events| == 1 {
      assert front == log;
    } else {
      assert front == log + [events[0]];
      FoldAppend(d.kernel, d.kernel.initial, log, events[0]);
    }
    FoldAppend(d.kernel, d.kernel.initial, front, ReplyOf(r));
  }

  /** After these actions p's reply stands at the end of the log and p has been told an error. */
  ghost predicate RecordedButRefused<S>(d: Desk<S>, w: World, actions: seq<Action>, p: nat)
    requires p < |w.requesters|
  {
    var w' := Run(d, w, actions);
    && |w'.log| > |w.log| && w'.log[|w'.log| - 1] == ReplyOf(w.requesters[p].request)
    && p < |w'.requesters| && w'.requesters[p].phase.Leaving? && w'.requesters[p].phase.got.Some?
    && w'.requesters[p].phase.got.value.Refused?
  }

  /**
   An error does not mean that nothing was recorded: when the resident dies after the append and
   before the result, its successor judges the same request again and refuses it.
   */
  lemma {:induction false} RefusedMayBeRecorded<S(!new)>(d: Desk<S>, w: World, p: nat)
    requires Lawful(d) && Fresh(w) && p < |w.requesters| && Acceptable(d, w, p)
    ensures exists actions: seq<Action> :: RecordedButRefused(d, w, actions, p)
  {
    hide VerdictOn, Lawful, Next, Run;
    var name, r := w.requesters[p].name, w.requesters[p].request;
    var now: nat :| VerdictOn(d, w.log, r, now).Accept?;
    var events := VerdictOn(d, w.log, r, now).events;
    AcceptedEndsInReply(d, w.log, r, now);
    AnsweredIsRefused(d, w.log, r, now);
    var code := VerdictOn(d, w.log + events, r, now).code;
    var again := [Judge(now)] + ([WriteResult] + ([Collect(p)] + []));
    var w2 := InHand(w, p);
    PublishAndPick(d, w, p, [Judge(now)] + ([ImporterDies] + ([Pick(name)] + again)));
    DiesAfterAppend(d, w2, name, now, events, again);
    RefusalReachesRequester(d, w2.(log := w.log + events), p, now, code);
    assert RecordedButRefused(d, w,
        [Publish(p)] + ([Pick(name)] + ([Judge(now)] + ([ImporterDies] + ([Pick(name)] + again)))), p);
  }

  lemma {:induction false} LeavesBehind<S>(d: Desk<S>, w: World, p: nat, rest: seq<Action>)
    requires p < |w.requesters| && w.requesters[p].phase == Waiting
    ensures var name := w.requesters[p].name;
            var gone := SetPhase(w, p, Gone(None)).(results := w.results - {name}, requests := w.requests - {name});
            Run(d, w, [GiveUp(p)] + ([Cleanup(p)] + ([Cleanup(p)] + rest))) == Run(d, gone, rest)
  {
    hide Run, Judged;
    var name := w.requesters[p].name;
    var w3 := SetPhase(w, p, Leaving(None));
    var w4 := SetPhase(w, p, LeavingMore(None)).(results := w.results - {name});
    StepTo(d, w, GiveUp(p), w3, [Cleanup(p)] + ([Cleanup(p)] + rest));
    StepTo(d, w3, Cleanup(p), w4, [Cleanup(p)] + rest);
    StepTo(d, w4, Cleanup(p),
        SetPhase(w, p, Gone(None)).(results := w.results - {name}, requests := w.requests - {name}), rest);
  }

  /** p gives up and cleans up while its request is being judged; the result comes too late for it. */
  lemma {:induction false} LateResult<S>(d: Desk<S>, w: World, p: nat, now: nat, events: seq<Event>, rest: seq<Action>)
    requires w.importer.Read? && p < |w.requesters| && w.requesters[p].phase == Waiting
             && w.requesters[p].name == w.importer.name
    requires VerdictOn(d, w.log, w.importer.request, now) == Accept(events)
    ensures var name, n := w.importer.name, |w.log| + |events|;
            var late := SetPhase(w, p, Gone(None)).(log := w.log + events, requests := w.requests - {name},
                                                    results := w.results[name := Seq(n)], importer := Wrote(name));
            Run(d, w, [GiveUp(p)] + ([Cleanup(p)] + ([Cleanup(p)] + ([Judge(now)] + ([WriteResult] + rest))))) ==
                Run(d, late, rest)
  {
    hide Decide, Fold, Run;
    var name, n := w.importer.name, |w.log| + |events|;
    var w5 := SetPhase(w, p, Gone(None)).(results := w.results - {name}, requests := w.requests - {name});
    var w6 := w5.(log := w.log + events, importer := Decided(name, Seq(n)));
    LeavesBehind(d, w, p, [Judge(now)] + ([WriteResult] + rest));
    StepTo(d, w5, Judge(now), w6, [WriteResult] + rest);
    assert (w.results - {name})[name := Seq(n)] == w.results[name := Seq(n)];
    StepTo(d, w6, WriteResult, w6.(results := w.results[name := Seq(n)], importer := Wrote(name)), rest);
  }

  /** A result file that is already there is the answer to whoever publishes under its name next. */
  lemma {:induction false} NextTakesIt<S>(d: Desk<S>, w: World, q: nat, n: nat)
    requires q < |w.requesters| && w.requesters[q].phase == Idle
    requires w.requesters[q].name in w.results && w.results[w.requesters[q].name] == Seq(n)
    ensures var w' := Run(d, w, [Publish(q)] + ([Collect(q)] + []));
            w'.log == w.log && |w'.requesters| == |w.requesters|
            && w'.requesters[q] == w.requesters[q].(phase := Leaving(Some(Seq(n))))
  {
    var me := w.requesters[q];
    var w1 := SetPhase(w, q, Waiting).(requests := w.requests[me.name := me.request]);
    StepTo(d, w, Publish(q), w1, [Collect(q)] + []);
    StepTo(d, w1, Collect(q), SetPhase(w1, q, Leaving(Some(Seq(n)))), []);
  }

  /** After these actions q holds the number of a reply that is not its own. */
  ghost predicate Misled<S>(d: Desk<S>, w: World, actions: seq<Action>, q: nat, n: nat) {
    q < |Run(d, w, actions).requesters| && !FindsItsReply(Run(d, w, actions), q, n)
  }

  /**
   If a later requester has the name of one that gave up while its request was being judged, it is
   handed the number of the other one's reply.
   */
  lemma {:induction false} ReusedNameMisleads<S(!new)>(d: Desk<S>, w: World, p: nat, q: nat)
    requires Fresh(w) && p < |w.requesters| && q < |w.requesters| && Acceptable(d, w, p)
    requires w.requesters[p].name == w.requesters[q].name
    requires ReplyOf(w.requesters[p].request) != ReplyOf(w.requesters[q].request)
    ensures exists actions: seq<Action>, n: nat :: Misled(d, w, actions, q, n)
  {
    hide VerdictOn, Next, Run;
    assert p != q;
    var name, r := w.requesters[p].name, w.requesters[p].request;
    var now: nat :| VerdictOn(d, w.log, r, now).Accept?;
    var events := VerdictOn(d, w.log, r, now).events;
    AcceptedEndsInReply(d, w.log, r, now);
    var n := |w.log| + |events|;
    var w2 := InHand(w, p);
    var late := SetPhase(w2, p, Gone(None)).(log := w.log + events, requests := w2.requests - {name},
                                             results := w2.results[name := Seq(n)], importer := Wrote(name));
    var finish := [Publish(q)] + ([Collect(q)] + []);
    NextTakesIt(d, late, q, n);
    LateResult(d, w2, p, now, events, finish);
    var meanwhile := [GiveUp(p)] + ([Cleanup(p)] + ([Cleanup(p)] + ([Judge(now)] + ([WriteResult] + finish))));
    PublishAndPick(d, w, p, meanwhile);
    assert late.log[n - 1] == ReplyOf(r);
    assert Misled(d, w, [Publish(p)] + ([Pick(name)] + meanwhile), q, n);
  }

  predicate Clash(w: World, p: nat, q: nat) {
    && p < |w.requesters| && q < |w.requesters| && w.requesters[p].name == w.requesters[q].name
    && ReplyOf(w.requesters[p].request) != ReplyOf(w.requesters[q].request)
  }

  /**
   Exactly what the names have to guarantee. Provided of two requesters that clash one could be
   accepted, a sequence number always leads a requester to its own reply, in every run, if and
   only if no name is used for two different replies.
   */
  lemma {:induction false} OwnReplyIffNamesAreNotReused<S(!new)>(d: Desk<S>, w: World)
    requires Fresh(w) && forall p: nat, q: nat | Clash(w, p, q) :: Acceptable(d, w, p) || Acceptable(d, w, q)
    ensures (forall actions: seq<Action>, q: nat, n: nat :: !Misled(d, w, actions, q, n)) <==> SameNameSameReply(w)
  {
    hide Acceptable, Fresh, ReplyOf;
    if SameNameSameReply(w) {
      FreshMail(w);
      forall actions: seq<Action>, q: nat, n: nat ensures !Misled(d, w, actions, q, n) {
        NeverMisled(d, w, actions, q, n);
      }
    } else {
      var p, q :| 0 <= p < |w.requesters| && 0 <= q < |w.requesters| && w.requesters[p].name == w.requesters[q].name
                  && ReplyOf(w.requesters[p].request) != ReplyOf(w.requesters[q].request);
      assert Clash(w, p, q);
      if Acceptable(d, w, p) {
        ReusedNameMisleads(d, w, p, q);
      } else {
        ReusedNameMisleads(d, w, q, p);
      }
    }
  }

  lemma {:induction false} NeverMisled<S>(d: Desk<S>, w: World, actions: seq<Action>, q: nat, n: nat)
    requires MailInv(w)
    ensures !Misled(d, w, actions, q, n)
  {
    RunKeepsMail(d, w, actions);
    var w' := Run(d, w, actions);
    assert q < |w'.requesters| && Holds(w'.requesters[q].phase, n) ==> Told(w', q, n);
    hide Run;
  }
}
