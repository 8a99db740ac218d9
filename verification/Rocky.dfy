/**
 The Rocky control layer: a proposed action is validated, judged by the policy, and only
 then run and recorded. The capability and registry files are read anew for every action,
 so they are part of each request; the executor's verdict is an input.
 */
module Rocky {
  import opened PyText
  import opened Wrappers

  datatype Kind =
    | DebianCommand | FileRead | FileWrite | FileDelete | MemoryWrite | MemorySearch | Notify | Speak
    | UnknownKind(name: string)

  datatype Risk =
    | ReadOnly | Write | Network | Private | Destructive | Privileged | Forbidden
    | UnknownRisk(name: string)

  datatype Capability =
    | ShellRead | ShellWrite | CapFileRead | CapFileWrite | CapFileDelete | CapMemoryRead | CapMemoryWrite
    | CapNetwork | CapPrivileged

  /** The payload fields the policy looks at; absent ones are empty. */
  datatype Payload = Payload(command: string, args: seq<string>, content: string)

  datatype Action = Action(kind: Kind, risk: Risk, payload: Payload)

  datatype Registry = Registry(forbidden: seq<string>, allowlist: set<string>, dangerous: set<string>)

  datatype Decision = Deny | AskUser | Allow

  function Rank(d: Decision): nat {
    match d case Deny => 0 case AskUser => 1 case Allow => 2
  }

  // ----- the policy

  const PRIVILEGED_COMMANDS := {
    "sudo", "su", "systemctl", "service", "apt", "apt-get", "dpkg", "pip", "pip3", "mount", "umount",
    "useradd", "userdel", "usermod", "passwd", "reboot", "shutdown", "crontab"}

  function Words(parts: seq<string>): string {
    if |parts| == 0 then "" else if |parts| == 1 then parts[0] else parts[0] + " " + Words(parts[1..])
  }

  function CommandString(p: Payload): string {
    Strip(Words([p.command] + p.args))
  }

  function Haystack(p: Payload): string {
    CommandString(p) + " " + p.content
  }

  predicate Matches(pattern: string, haystack: string) {
    pattern != "" && Contains(haystack, pattern)
  }

  predicate MatchesAny(patterns: seq<string>, haystack: string) {
    exists i :: 0 <= i < |patterns| && Matches(patterns[i], haystack)
  }

  /** `_required_capability` */
  function Required(a: Action, allowlist: set<string>): Option<Capability> {
    if a.kind == DebianCommand then
      var base := Strip(a.payload.command);
      if base in PRIVILEGED_COMMANDS || a.risk == Privileged then Some(CapPrivileged)
      else if a.risk == Network then Some(CapNetwork)
      else if a.risk == ReadOnly && base in allowlist then Some(ShellRead)
      else Some(ShellWrite)
    else if a.risk == Network then Some(CapNetwork)
    else
      match a.kind
      case FileRead => Some(CapFileRead)
      case FileWrite => Some(CapFileWrite)
      case FileDelete => Some(CapFileDelete)
      case MemoryWrite => Some(CapMemoryWrite)
      case MemorySearch => Some(CapMemoryRead)
      case _ => None
  }

  /** The capability this action needs is not enabled. */
  predicate Disabled(a: Action, caps: set<Capability>, allowlist: set<string>) {
    var c := Required(a, allowlist);
    c.Some? && c.value !in caps
  }

  /** What the policy means: the conditions under which an action is denied. */
  predicate Denied(a: Action, caps: set<Capability>, reg: Registry) {
    || a.risk == Forbidden
    || MatchesAny(reg.forbidden, Haystack(a.payload))
    || Disabled(a, caps, reg.allowlist)
    || (a.kind == DebianCommand && Strip(a.payload.command) == "")
  }

  /** The conditions under which an action that is not denied runs without asking. */
  predicate Harmless(a: Action, reg: Registry) {
    && a.risk == ReadOnly
    && (a.kind == DebianCommand ==> Strip(a.payload.command) in reg.allowlist - reg.dangerous)
  }

  function Meaning(a: Action, caps: set<Capability>, reg: Registry): Decision {
    if Denied(a, caps, reg) then Deny else if Harmless(a, reg) then Allow else AskUser
  }

  /** `decide`: the rules in the order they are tried. */
  method Decide(a: Action, caps: set<Capability>, reg: Registry) returns (d: Decision)
    ensures d == Meaning(a, caps, reg)
  {
    if a.risk == Forbidden {
      return Deny;
    }
    var haystack := Haystack(a.payload);
    for i := 0 to |reg.forbidden|
      invariant forall j :: 0 <= j < i ==> !Matches(reg.forbidden[j], haystack)
    {
      if Matches(reg.forbidden[i], haystack) {
        return Deny;
      }
    }
    var required := Required(a, reg.allowlist);
    if required.Some? && required.value !in caps {
      return Deny;
    }
    if a.kind == DebianCommand {
      var base := Strip(a.payload.command);
      if base == "" {
        return Deny;
      }
      if base in reg.dangerous {
        return AskUser;
      }
      if a.risk == ReadOnly && base in reg.allowlist {
        return Allow;
      }
      return AskUser;
    }
    d := if a.risk == ReadOnly then Allow else AskUser;
  }

  // ----- which capability an action needs

  /** Nothing but a capability can deny the action: no forbidden risk, no forbidden pattern. */
  predicate Unmatched(a: Action, reg: Registry) {
    a.risk != Forbidden && !MatchesAny(reg.forbidden, Haystack(a.payload))
  }

  /** Short of network risk, each kind is denied exactly if its own capability is disabled; the others never are. */
  lemma KindNeeds(a: Action, caps: set<Capability>, reg: Registry)
    requires Unmatched(a, reg) && a.risk != Network
    ensures a.kind == FileRead ==> (Meaning(a, caps, reg) == Deny <==> CapFileRead !in caps)
    ensures a.kind == FileWrite ==> (Meaning(a, caps, reg) == Deny <==> CapFileWrite !in caps)
    ensures a.kind == FileDelete ==> (Meaning(a, caps, reg) == Deny <==> CapFileDelete !in caps)
    ensures a.kind == MemoryWrite ==> (Meaning(a, caps, reg) == Deny <==> CapMemoryWrite !in caps)
    ensures a.kind == MemorySearch ==> (Meaning(a, caps, reg) == Deny <==> CapMemoryRead !in caps)
    ensures a.kind == Notify || a.kind == Speak || a.kind.UnknownKind? ==> Meaning(a, caps, reg) != Deny
  {
  }

  /** At network risk every kind other than a command needs the network, and only that. */
  lemma NetworkNeeds(a: Action, caps: set<Capability>, reg: Registry)
    requires Unmatched(a, reg) && a.risk == Network && a.kind != DebianCommand
    ensures Meaning(a, caps, reg) == Deny <==> CapNetwork !in caps
  {
  }

  /** The commands that need the privileged capability whatever their risk. */
  predicate NamesPrivileged(base: string) {
    || base == "sudo" || base == "su" || base == "systemctl" || base == "service" || base == "apt" || base == "apt-get"
    || base == "dpkg" || base == "pip" || base == "pip3" || base == "mount" || base == "umount" || base == "useradd"
    || base == "userdel" || base == "usermod" || base == "passwd" || base == "reboot" || base == "shutdown" || base == "crontab"
  }

  /** What a command needs: a name, and one capability that its name and its risk decide. */
  lemma CommandNeeds(a: Action, caps: set<Capability>, reg: Registry)
    requires Unmatched(a, reg) && a.kind == DebianCommand
    ensures var base := Strip(a.payload.command);
            Meaning(a, caps, reg) == Deny <==>
            || base == ""
            || if NamesPrivileged(base) || a.risk == Privileged then CapPrivileged !in caps
               else if a.risk == Network then CapNetwork !in caps
               else if a.risk == ReadOnly && base in reg.allowlist then ShellRead !in caps
               else ShellWrite !in caps
  {
  }

  /** Two capability files that agree on an action's one capability agree on the action. */
  lemma OneCapabilityDecides(a: Action, caps: set<Capability>, caps': set<Capability>, reg: Registry)
    ensures a.kind in {Notify, Speak} && a.risk != Network ==> Meaning(a, caps, reg) == Meaning(a, caps', reg)
    ensures a.kind != DebianCommand && a.risk == Network && SameOn(CapNetwork, caps, caps') ==> Meaning(a, caps, reg) == Meaning(a, caps', reg)
    ensures a.kind == FileRead && a.risk != Network && SameOn(CapFileRead, caps, caps') ==> Meaning(a, caps, reg) == Meaning(a, caps', reg)
    ensures a.kind == FileWrite && a.risk != Network && SameOn(CapFileWrite, caps, caps') ==> Meaning(a, caps, reg) == Meaning(a, caps', reg)
    ensures a.kind == FileDelete && a.risk != Network && SameOn(CapFileDelete, caps, caps') ==> Meaning(a, caps, reg) == Meaning(a, caps', reg)
    ensures a.kind == MemoryWrite && a.risk != Network && SameOn(CapMemoryWrite, caps, caps') ==> Meaning(a, caps, reg) == Meaning(a, caps', reg)
    ensures a.kind == MemorySearch && a.risk != Network && SameOn(CapMemoryRead, caps, caps') ==> Meaning(a, caps, reg) == Meaning(a, caps', reg)
  {
  }

  predicate SameOn(c: Capability, caps: set<Capability>, caps': set<Capability>) {
    c in caps <==> c in caps'
  }

  /** What is not denied runs unasked exactly if it is read-only and, for a command, on the allowlist and not dangerous. */
  lemma UnaskedIff(a: Action, caps: set<Capability>, reg: Registry)
    ensures Meaning(a, caps, reg) == Allow <==>
            && Meaning(a, caps, reg) != Deny && a.risk == ReadOnly
            && (a.kind == DebianCommand ==> Strip(a.payload.command) in reg.allowlist && Strip(a.payload.command) !in reg.dangerous)
  {
  }

  // ----- where forbidden patterns are looked for

  /** The command line is the command and its arguments, one space between any two. */
  lemma {:induction false} WordsAppend(xs: seq<string>, ys: seq<string>)
    requires xs != [] && ys != []
    ensures Words(xs + ys) == Words(xs) + " " + Words(ys)
  {
    if |xs| == 1 {
      assert (xs + ys)[1..] == ys;
    } else {
      assert (xs + ys)[1..] == xs[1..] + ys;
      WordsAppend(xs[1..], ys);
    }
  }

  /** A forbidden pattern anywhere in the content denies the action, whatever its kind and risk. */
  lemma ContentPatternDenies(a: Action, caps: set<Capability>, reg: Registry, before: string, pattern: string, after: string)
    requires pattern != "" && pattern in reg.forbidden && a.payload.content == before + pattern + after
    ensures Meaning(a, caps, reg) == Deny
  {
    var h := Haystack(a.payload);
    var k := |CommandString(a.payload)| + 1 + |before|;
    assert h[k..k + |pattern|] == pattern;
    FoundDenies(a, caps, reg, pattern, k);
  }

  /** So does one anywhere in the command line between its outer white space. */
  lemma CommandPatternDenies(a: Action, caps: set<Capability>, reg: Registry, before: string, pattern: string, after: string)
    requires pattern != "" && pattern in reg.forbidden
    requires Strip(Words([a.payload.command] + a.payload.args)) == before + pattern + after
    ensures Meaning(a, caps, reg) == Deny
  {
    var h := Haystack(a.payload);
    assert h[|before|..|before| + |pattern|] == pattern;
    FoundDenies(a, caps, reg, pattern, |before|);
  }

  lemma FoundDenies(a: Action, caps: set<Capability>, reg: Registry, pattern: string, k: nat)
    requires pattern != "" && pattern in reg.forbidden && OccursAt(Haystack(a.payload), pattern, k)
    ensures Meaning(a, caps, reg) == Deny
  {
    var i :| 0 <= i < |reg.forbidden| && reg.forbidden[i] == pattern;
    assert Matches(reg.forbidden[i], Haystack(a.payload));
  }

  // ----- which changes to the policy files can only make it stricter

  /** More forbidden patterns, more dangerous commands, fewer capabilities, the same allowlist. */
  predicate Stricter(caps: set<Capability>, reg: Registry, caps': set<Capability>, reg': Registry) {
    && caps' <= caps
    && (forall i :: 0 <= i < |reg.forbidden| ==> reg.forbidden[i] in reg'.forbidden)
    && reg.dangerous <= reg'.dangerous
    && reg'.allowlist == reg.allowlist
  }

  lemma StricterNeverRaises(a: Action, caps: set<Capability>, reg: Registry, caps': set<Capability>, reg': Registry)
    requires Stricter(caps, reg, caps', reg')
    ensures Rank(Meaning(a, caps', reg')) <= Rank(Meaning(a, caps, reg))
  {
    var h := Haystack(a.payload);
    if MatchesAny(reg.forbidden, h) {
      var i :| 0 <= i < |reg.forbidden| && Matches(reg.forbidden[i], h);
      var j :| 0 <= j < |reg'.forbidden| && reg'.forbidden[j] == reg.forbidden[i];
      assert Matches(reg'.forbidden[j], h);
    }
  }

  /** This action's decision does not rise when the allowlist shrinks. */
  predicate ShrinkSafe(a: Action, caps: set<Capability>, reg: Registry, smaller: set<string>) {
    Rank(Meaning(a, caps, reg.(allowlist := smaller))) <= Rank(Meaning(a, caps, reg))
  }

  lemma ShrinkNeverRaises(a: Action, caps: set<Capability>, reg: Registry, smaller: set<string>)
    requires smaller <= reg.allowlist && (ShellWrite in caps ==> ShellRead in caps)
    ensures ShrinkSafe(a, caps, reg, smaller)
  {
  }

  /** Even otherwise a smaller allowlist never lets anything run unasked. */
  lemma ShrinkNeverAllows(a: Action, caps: set<Capability>, reg: Registry, smaller: set<string>)
    requires smaller <= reg.allowlist && Meaning(a, caps, reg.(allowlist := smaller)) == Allow
    ensures Meaning(a, caps, reg) == Allow
  {
  }

  lemma LsMatchesNothing()
    ensures Strip("ls") == "ls" && "ls" !in PRIVILEGED_COMMANDS
  {
    assert "ls"[..2] == "ls";
  }

  /**
   Shrinking the allowlist never raises a decision, for any registry and action, exactly
   when enabling shell_write implies enabling shell_read.
   */
  lemma ShrinkSafeIff(caps: set<Capability>)
    ensures (forall a: Action, reg: Registry, smaller: set<string> :: smaller <= reg.allowlist ==> ShrinkSafe(a, caps, reg, smaller))
            <==> (ShellWrite in caps ==> ShellRead in caps)
  {
    if ShellWrite in caps && ShellRead !in caps {
      var a := Action(DebianCommand, ReadOnly, Payload("ls", [], ""));
      var reg := Registry([], {"ls"}, {});
      LsMatchesNothing();
      assert Meaning(a, caps, reg) == Deny;
      assert Meaning(a, caps, reg.(allowlist := {})) == AskUser;
      assert !ShrinkSafe(a, caps, reg, {});
    } else {
      forall a: Action, reg: Registry, smaller: set<string> | smaller <= reg.allowlist ensures ShrinkSafe(a, caps, reg, smaller) {
        ShrinkNeverRaises(a, caps, reg, smaller);
      }
    }
  }

  // ----- the pipeline

  /** A proposal as it arrives: not an object, or one whose payload may not be an object. */
  datatype Proposal = NotAnObject | Object(isAction: bool, kind: Kind, risk: Risk, payload: Option<Payload>)

  datatype SchemaError = NoObject | WrongType | WrongKind | WrongRisk | WrongPayload

  predicate WellFormed(p: Proposal) {
    p.Object? && p.isAction && !p.kind.UnknownKind? && !p.risk.UnknownRisk? && p.payload.Some?
  }

  /** Each fault has its own error, so a proposal without errors is exactly a well-formed one. */
  method ValidateAction(p: Proposal) returns (errs: seq<SchemaError>)
    ensures errs == [] <==> WellFormed(p)
    ensures NoObject in errs <==> p.NotAnObject?
    ensures WrongType in errs <==> p.Object? && !p.isAction
    ensures WrongKind in errs <==> p.Object? && p.kind.UnknownKind?
    ensures WrongRisk in errs <==> p.Object? && p.risk.UnknownRisk?
    ensures WrongPayload in errs <==> p.Object? && p.payload.None?
  {
    if p.NotAnObject? {
      return [NoObject];
    }
    errs := [];
    if !p.isAction { errs := errs + [WrongType]; }
    if p.kind.UnknownKind? { errs := errs + [WrongKind]; }
    if p.risk.UnknownRisk? { errs := errs + [WrongRisk]; }
    if p.payload.None? { errs := errs + [WrongPayload]; }
  }

  /** One call: the proposal, the policy files at that time, the `--yes` flag and the executor's verdict. */
  datatype Request = Request(proposal: Proposal, caps: set<Capability>, reg: Registry, yes: bool, succeeds: bool)

  function Proposed(r: Request): Action
    requires WellFormed(r.proposal)
  {
    Action(r.proposal.kind, r.proposal.risk, r.proposal.payload.value)
  }

  function Verdict(r: Request): Decision
    requires WellFormed(r.proposal)
  {
    Meaning(Proposed(r), r.caps, r.reg)
  }

  /** The action may run: allowed outright, or the user said yes. */
  predicate Cleared(r: Request)
    requires WellFormed(r.proposal)
  {
    Verdict(r) == Allow || (Verdict(r) == AskUser && r.yes)
  }

  datatype RowStatus = StatusProposed | StatusDenied | StatusAwaiting | StatusSucceeded | StatusFailed

  datatype Row = Row(action: Action, decision: Decision, status: RowStatus)

  datatype LogEntry = SchemaReject | Decided(row: nat) | Executed(row: nat)

  class Pipeline {
    var rows: seq<Row>
    var toolCalls: seq<nat>
    var log: seq<LogEntry>
    ghost var runs: seq<Action>

    ghost function View(): Db
      reads this
    {
      Db(rows, toolCalls, log, runs)
    }

    constructor ()
      ensures View() == EmptyDb()
    {
      rows, toolCalls, log, runs := [], [], [], [];
    }

    method RecordAction(a: Action, d: Decision) returns (id: nat)
      modifies this`rows
      ensures id == |old(rows)| && rows == old(rows) + [Row(a, d, StatusProposed)]
    {
      id := |rows|;
      rows := rows + [Row(a, d, StatusProposed)];
    }

    method UpdateActionStatus(id: nat, status: RowStatus)
      requires id < |rows|
      modifies this`rows
      ensures rows == old(rows)[id := old(rows)[id].(status := status)]
    {
      rows := rows[id := rows[id].(status := status)];
    }

    /** The executor runs an action; what it does outside the database is only its verdict here. */
    method Execute(a: Action, succeeds: bool) returns (ok: bool)
      modifies this`runs
      ensures runs == old(runs) + [a] && ok == succeeds
    {
      runs := runs + [a];
      ok := succeeds;
    }

    method HandleAction(r: Request) returns (ok: bool)
      modifies this
      ensures View() == Handled(old(View()), r)
      ensures ok <==> WellFormed(r.proposal) && Cleared(r) && r.succeeds
    {
      var errs := ValidateAction(r.proposal);
      if errs != [] {
        log := log + [SchemaReject];
        return false;
      }
      var a := Proposed(r);
      var decision := Decide(a, r.caps, r.reg);
      var id := RecordAction(a, decision);
      if decision == Deny {
        UpdateActionStatus(id, StatusDenied);
        log := log + [Decided(id)];
        return false;
      }
      if decision == AskUser && !r.yes {
        UpdateActionStatus(id, StatusAwaiting);
        log := log + [Decided(id)];
        return false;
      }
      ok := Execute(a, r.succeeds);
      toolCalls := toolCalls + [id];
      UpdateActionStatus(id, if ok then StatusSucceeded else StatusFailed);
      log := log + [Executed(id)];
    }
  }

  // ----- what the database says after any sequence of requests

  datatype Db = Db(rows: seq<Row>, toolCalls: seq<nat>, log: seq<LogEntry>, runs: seq<Action>)

  function EmptyDb(): Db {
    Db([], [], [], [])
  }

  function FinalStatus(r: Request): RowStatus
    requires WellFormed(r.proposal)
  {
    if Verdict(r) == Deny then StatusDenied
    else if !Cleared(r) then StatusAwaiting
    else if r.succeeds then StatusSucceeded
    else StatusFailed
  }

  function Handled(db: Db, r: Request): Db {
    if !WellFormed(r.proposal) then db.(log := db.log + [SchemaReject])
    else
      var id := |db.rows|;
      var db' := db.(rows := db.rows + [Row(Proposed(r), Verdict(r), FinalStatus(r))]);
      if Cleared(r) then db'.(toolCalls := db.toolCalls + [id], log := db.log + [Executed(id)], runs := db.runs + [Proposed(r)])
      else db'.(log := db.log + [Decided(id)])
  }

  function After(rs: seq<Request>): Db {
    if rs == [] then EmptyDb() else Handled(After(rs[..|rs| - 1]), rs[|rs| - 1])
  }

  /** The requests that passed validation, in order. */
  function Accepted(rs: seq<Request>): (qs: seq<Request>)
    ensures forall i :: 0 <= i < |qs| ==> WellFormed(qs[i].proposal)
  {
    if rs == [] then []
    else Accepted(rs[..|rs| - 1]) + if WellFormed(rs[|rs| - 1].proposal) then [rs[|rs| - 1]] else []
  }

  /** There is one row per accepted request, with its decision and a final status. */
  ghost predicate RowsFaithful(db: Db, qs: seq<Request>)
    requires forall i :: 0 <= i < |qs| ==> WellFormed(qs[i].proposal)
  {
    && |db.rows| == |qs|
    && forall i :: 0 <= i < |qs| ==> db.rows[i] == Row(Proposed(qs[i]), Verdict(qs[i]), FinalStatus(qs[i]))
  }

  /** The tool calls are the rows of cleared requests, each once and in order, and nothing else was run. */
  ghost predicate CallsFaithful(db: Db, qs: seq<Request>)
    requires forall i :: 0 <= i < |qs| ==> WellFormed(qs[i].proposal)
  {
    && |db.runs| == |db.toolCalls|
    && (forall j :: 0 <= j < |db.toolCalls| ==> db.toolCalls[j] < |qs| && db.runs[j] == Proposed(qs[db.toolCalls[j]]))
    && (forall j, k :: 0 <= j < k < |db.toolCalls| ==> db.toolCalls[j] < db.toolCalls[k])
    && (forall i :: 0 <= i < |qs| ==> (Cleared(qs[i]) <==> i in db.toolCalls))
  }

  lemma CallsGrow(db: Db, qs: seq<Request>, r: Request)
    requires (forall i :: 0 <= i < |qs| ==> WellFormed(qs[i].proposal)) && WellFormed(r.proposal)
    requires RowsFaithful(db, qs) && CallsFaithful(db, qs)
    ensures CallsFaithful(Handled(db, r), qs + [r])
  {
    var after, all := Handled(db, r), qs + [r];
    forall i | 0 <= i < |all| ensures Cleared(all[i]) <==> i in after.toolCalls {
      assert i < |qs| ==> all[i] == qs[i];
      assert i in after.toolCalls <==> i in db.toolCalls || (Cleared(r) && i == |qs|);
    }
  }

  /**
   In every sequence of requests the executor runs exactly the cleared ones, tool-call rows
   match them one to one, and no row is left proposed.
   */
  lemma {:induction false} PipelineFaithful(rs: seq<Request>)
    ensures RowsFaithful(After(rs), Accepted(rs)) && CallsFaithful(After(rs), Accepted(rs))
    ensures forall i :: 0 <= i < |After(rs).rows| ==> After(rs).rows[i].status != StatusProposed
  {
    if rs != [] {
      var n := |rs| - 1;
      PipelineFaithful(rs[..n]);
      if WellFormed(rs[n].proposal) {
        CallsGrow(After(rs[..n]), Accepted(rs[..n]), rs[n]);
      } else {
        assert Accepted(rs) == Accepted(rs[..n]);
      }
    }
  }

  /** What a row's status says about its request. */
  lemma StatusMeans(rs: seq<Request>, i: nat)
    requires i < |Accepted(rs)|
    ensures i < |After(rs).rows|
    ensures var q, row := Accepted(rs)[i], After(rs).rows[i];
            && row.action == Action(q.proposal.kind, q.proposal.risk, q.proposal.payload.value)
            && row.decision == Meaning(row.action, q.caps, q.reg)
            && (row.status == StatusDenied <==> row.decision == Deny)
            && (row.status == StatusAwaiting <==> row.decision == AskUser && !q.yes)
            && (row.status == StatusSucceeded <==> (row.decision == Allow || (row.decision == AskUser && q.yes)) && q.succeeds)
            && (row.status == StatusFailed <==> (row.decision == Allow || (row.decision == AskUser && q.yes)) && !q.succeeds)
  {
    PipelineFaithful(rs);
  }

  /** The entry a request leaves in the log: a rejection, or its row with whether it was run. */
  function Entry(r: Request, row: nat): LogEntry {
    if !WellFormed(r.proposal) then SchemaReject
    else
      var d := Meaning(Action(r.proposal.kind, r.proposal.risk, r.proposal.payload.value), r.caps, r.reg);
      if d == Allow || (d == AskUser && r.yes) then Executed(row) else Decided(row)
  }

  lemma HandledEntry(db: Db, r: Request)
    ensures Handled(db, r).log == db.log + [Entry(r, |db.rows|)]
  {
  }

  /** The log has one entry per request, which names the row that the request got. */
  lemma {:induction false} LogMeans(rs: seq<Request>)
    ensures |After(rs).log| == |rs|
    ensures forall k :: 0 <= k < |rs| ==> After(rs).log[k] == Entry(rs[k], |Accepted(rs[..k])|)
  {
    if rs != [] {
      var n := |rs| - 1;
      var ps := rs[..n];
      LogMeans(ps);
      PipelineFaithful(ps);
      HandledEntry(After(ps), rs[n]);
      forall k | 0 <= k < |rs| ensures After(rs).log[k] == Entry(rs[k], |Accepted(rs[..k])|) {
        if k < n {
          assert ps[..k] == rs[..k] && ps[k] == rs[k];
        }
      }
    }
  }

  /** An action that was refused or never confirmed was never run. */
  lemma UnclearedNeverRuns(rs: seq<Request>, i: nat)
    requires i < |After(rs).rows| && After(rs).rows[i].status in {StatusDenied, StatusAwaiting}
    ensures i !in After(rs).toolCalls
  {
    PipelineFaithful(rs);
  }
}
