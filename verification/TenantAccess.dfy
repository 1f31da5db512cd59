/** Tenant access: the update of a tenant row by the Go service and by the Python service.

    Both build a list of column assignments and run them as one UPDATE, left to right. Times are
    integer seconds; sub-second parts and timestamp formats are left out. */
module TenantAccess {
  import opened Basics

  type Time = int

  datatype Status = Active | Disabled

  /** A status parameter as sent: exact, with blanks around it, or not a status. */
  datatype StatusInput = Exact(status: Status) | Padded(status: Status) | NoStatus

  /** A stored activation stamp: an empty text, blanks, or a real text. */
  datatype Stamp = EmptyText | BlankText | StampText(at: Time)

  /** A stored expiry: a time, or a text that cannot be parsed. */
  datatype Expiry = At(time: Time) | Unparsable

  datatype Row = Row(isAdmin: bool, status: Status, aiEnabled: bool, activationRequired: bool,
                     activatedAt: Option<Stamp>, expiresAt: Option<Expiry>)

  datatype Input = Input(status: Option<StatusInput>, aiEnabled: Option<bool>, activationRequired: Option<bool>,
                         extend: Option<int>)

  datatype Problem = BadStatus | BadDuration | NothingToUpdate | UnknownTenant | AdminActivation | AdminDisabled

  datatype Outcome = Updated(row: Row) | Rejected(problem: Problem)

  const MINUTE := 60
  const MAX_MINUTES := 525600

  // ----- column assignments ------------------------------------------------------------------

  datatype Assignment =
    | SetStatus(status: Status)
    | SetAi(flag: bool)
    | SetActivation(flag: bool)
    | KeepOrSetActivatedAt(at: Time)
    | ClearExpiry
    | SetExpiry(time: Time)

  function Assign(row: Row, a: Assignment): Row {
    match a
    case SetStatus(status) => row.(status := status)
    case SetAi(flag) => row.(aiEnabled := flag)
    case SetActivation(flag) => row.(activationRequired := flag)
    case KeepOrSetActivatedAt(at) => if row.activatedAt.Some? then row else row.(activatedAt := Some(StampText(at)))
    case ClearExpiry => row.(expiresAt := None)
    case SetExpiry(time) => row.(expiresAt := Some(At(time)))
  }

  function AssignAll(row: Row, assignments: seq<Assignment>): Row
    decreases |assignments|
  {
    if assignments == [] then row
    else Assign(AssignAll(row, assignments[..|assignments| - 1]), assignments[|assignments| - 1])
  }

  lemma AssignOne(row: Row, assignments: seq<Assignment>, a: Assignment)
    ensures AssignAll(row, assignments + [a]) == Assign(AssignAll(row, assignments), a)
  {
    assert (assignments + [a])[..|assignments + [a]| - 1] == assignments;
  }

  // ----- what an accepted update does ----------------------------------------------------------

  function NextExpiry(row: Row, now: Time, minutes: int): Time {
    var base := if row.expiresAt.Some? && row.expiresAt.value.At? && row.expiresAt.value.time > now
                then row.expiresAt.value.time else now;
    base + minutes * MINUTE
  }

  function StatusOf(s: StatusInput): Status
    requires !s.NoStatus?
  {
    s.status
  }

  /** The row after an accepted update, column by column. */
  function After(row: Row, input: Input, now: Time): Row
    requires input.status.Some? ==> !input.status.value.NoStatus?
  {
    var given := if input.status.Some? then Some(StatusOf(input.status.value)) else None;
    var opens := input.activationRequired == Some(false);
    Row(
      row.isAdmin,
      if input.extend.Some? && row.activationRequired && given != Some(Disabled) then Active
      else if given.Some? then given.value else row.status,
      if input.aiEnabled.Some? then input.aiEnabled.value else row.aiEnabled,
      if input.activationRequired.Some? then input.activationRequired.value else row.activationRequired,
      if (opens || input.extend.Some?) && row.activatedAt.None? then Some(StampText(now)) else row.activatedAt,
      if input.extend.Some? then Some(At(NextExpiry(row, now, input.extend.value)))
      else if opens then None else row.expiresAt)
  }

  function WithGiven(row: Row, status: Option<Status>, input: Input): Row {
    row.(status := if status.Some? then status.value else row.status,
         aiEnabled := if input.aiEnabled.Some? then input.aiEnabled.value else row.aiEnabled,
         activationRequired := if input.activationRequired.Some? then input.activationRequired.value
                               else row.activationRequired)
  }

  function AdminProblem(row: Row, input: Input): Option<Problem> {
    if row.isAdmin && input.activationRequired == Some(true) then Some(AdminActivation)
    else if row.isAdmin && input.status.Some? && !input.status.value.NoStatus? && StatusOf(input.status.value) == Disabled
    then Some(AdminDisabled)
    else None
  }

  /** Go: the status is trimmed, and a duration out of range is refused. */
  function GoOutcome(row: Option<Row>, input: Input, now: Time): Outcome {
    if input.status == Some(NoStatus) then Rejected(BadStatus)
    else if input.extend.Some? && (input.extend.value < 1 || input.extend.value > MAX_MINUTES) then Rejected(BadDuration)
    else if input == Input(None, None, None, None) then Rejected(NothingToUpdate)
    else if row.None? then Rejected(UnknownTenant)
    else if AdminProblem(row.value, input).Some? then Rejected(AdminProblem(row.value, input).value)
    else Updated(After(row.value, input, now))
  }

  /** Python: the status must be exact, and a duration is clamped into range. */
  function PythonOutcome(row: Option<Row>, input: Input, now: Time): Outcome {
    if input.status.Some? && !input.status.value.Exact? then Rejected(BadStatus)
    else
      var clamped := if input.extend.Some? then Some(Max(1, Min(input.extend.value, MAX_MINUTES))) else None;
      if input == Input(None, None, None, None) then Rejected(NothingToUpdate)
      else if row.None? then Rejected(UnknownTenant)
      else if AdminProblem(row.value, input).Some? then Rejected(AdminProblem(row.value, input).value)
      else Updated(After(row.value, input.(extend := clamped), now))
  }

  // ----- the two services --------------------------------------------------------------------

  class TenantStore {
    var rows: map<int, Row>

    constructor (rows: map<int, Row>)
      ensures this.rows == rows
    {
      this.rows := rows;
    }

    function Find(id: int): Option<Row>
      reads this
    {
      if id in rows then Some(rows[id]) else None
    }

    /** Writes exactly the outcome's row, and nothing when the update is rejected. */
    ghost predicate Wrote(before: map<int, Row>, id: int, outcome: Outcome)
      reads this
    {
      rows == if outcome.Updated? then before[id := outcome.row] else before
    }

    /** `UpdateAccess` of the Go service. */
    method UpdateAccess(id: int, input: Input, now: Time) returns (outcome: Outcome)
      modifies this
      ensures outcome == GoOutcome(old(Find(id)), input, now)
      ensures Wrote(old(rows), id, outcome)
    {
      if input.status == Some(NoStatus) {
        return Rejected(BadStatus);
      }
      var minutes := if input.extend.Some? then input.extend.value else 1;
      if minutes < 1 || minutes > MAX_MINUTES {
        return Rejected(BadDuration);
      }
      if input.status.None? && input.aiEnabled.None? && input.activationRequired.None? && input.extend.None? {
        return Rejected(NothingToUpdate);
      }
      if id !in rows {
        return Rejected(UnknownTenant);
      }
      var row := rows[id];
      var finalStatus := if input.status.Some? then Some(StatusOf(input.status.value)) else None;
      if row.isAdmin && input.activationRequired == Some(true) {
        return Rejected(AdminActivation);
      }
      if row.isAdmin && finalStatus == Some(Disabled) {
        return Rejected(AdminDisabled);
      }
      var needActivatedAt, clearExpiry := false, false;
      var nextExpiry: Option<Time> := None;
      if input.activationRequired == Some(false) {
        needActivatedAt, clearExpiry := true, true;
      }
      if input.extend.Some? {
        nextExpiry := Some(NextExpiry(row, now, minutes));
        clearExpiry := false;
        needActivatedAt := true;
        if row.activationRequired && finalStatus != Some(Disabled) {
          finalStatus := Some(Active);
        }
      }
      var list := GoAssignments(row, input, now, finalStatus, needActivatedAt, clearExpiry, nextExpiry);
      rows := rows[id := AssignAll(row, list)];
      return Updated(rows[id]);
    }

    /** The columns that are written as given. */
    static method GivenColumns(row: Row, status: Option<Status>, input: Input) returns (list: seq<Assignment>)
      ensures AssignAll(row, list) == WithGiven(row, status, input)
    {
      list := [];
      if status.Some? {
        list := Extend(row, list, SetStatus(status.value));
      }
      var written := if status.Some? then status.value else row.status;
      assert AssignAll(row, list) == row.(status := written);
      if input.aiEnabled.Some? {
        list := Extend(row, list, SetAi(input.aiEnabled.value));
      }
      var ai := if input.aiEnabled.Some? then input.aiEnabled.value else row.aiEnabled;
      assert AssignAll(row, list) == row.(status := written, aiEnabled := ai);
      if input.activationRequired.Some? {
        list := Extend(row, list, SetActivation(input.activationRequired.value));
      }
    }

    /** The statement the Go service builds from its decisions. */
    static method GoAssignments(row: Row, input: Input, now: Time, finalStatus: Option<Status>,
                                needActivatedAt: bool, clearExpiry: bool, nextExpiry: Option<Time>)
      returns (list: seq<Assignment>)
      ensures var given := WithGiven(row, finalStatus, input);
              AssignAll(row, list) == given.(
                activatedAt := if needActivatedAt && row.activatedAt.None? then Some(StampText(now)) else row.activatedAt,
                expiresAt := if nextExpiry.Some? then Some(At(nextExpiry.value))
                             else if clearExpiry then None else row.expiresAt)
    {
      list := GivenColumns(row, finalStatus, input);
      if needActivatedAt {
        list := Extend(row, list, KeepOrSetActivatedAt(now));
      }
      if clearExpiry {
        list := Extend(row, list, ClearExpiry);
      }
      if nextExpiry.Some? {
        list := Extend(row, list, SetExpiry(nextExpiry.value));
      }
    }

    /** Appends one assignment to the statement. */
    static method Extend(ghost row: Row, list: seq<Assignment>, a: Assignment) returns (longer: seq<Assignment>)
      ensures longer == list + [a]
      ensures AssignAll(row, longer) == Assign(AssignAll(row, list), a)
    {
      longer := list + [a];
      AssignOne(row, list, a);
    }

    /** `update_tenant_access_sync` of the Python service: the same columns in another order, with
        the clearing of the expiry filtered out again and the status written twice. */
    method UpdateTenantAccess(id: int, input: Input, now: Time) returns (outcome: Outcome)
      modifies this
      ensures outcome == PythonOutcome(old(Find(id)), input, now)
      ensures Wrote(old(rows), id, outcome)
    {
      if input.status.Some? && !input.status.value.Exact? {
        return Rejected(BadStatus);
      }
      var minutes := if input.extend.Some? then Max(1, Min(input.extend.value, MAX_MINUTES)) else 1;
      if input.status.None? && input.aiEnabled.None? && input.activationRequired.None? && input.extend.None? {
        return Rejected(NothingToUpdate);
      }
      if id !in rows {
        return Rejected(UnknownTenant);
      }
      var row := rows[id];
      if row.isAdmin && input.activationRequired == Some(true) {
        return Rejected(AdminActivation);
      }
      if row.isAdmin && input.status == Some(Exact(Disabled)) {
        return Rejected(AdminDisabled);
      }
      var list := PythonAssignments(row, input, now, minutes);
      rows := rows[id := AssignAll(row, list)];
      return Updated(rows[id]);
    }

    /** The first half of the statement: the fields that are given. */
    static method FieldAssignments(row: Row, input: Input, now: Time) returns (list: seq<Assignment>)
      requires input.status.Some? ==> input.status.value.Exact?
      ensures AssignAll(row, list) == After(row, input.(extend := None), now)
    {
      list := GivenColumns(row, if input.status.Some? then Some(input.status.value.status) else None, input);
      if input.activationRequired == Some(false) {
        list := Extend(row, list, KeepOrSetActivatedAt(now));
        list := Extend(row, list, ClearExpiry);
      }
    }

    /** The stamp is added unless the statement has it already. */
    static method StampOnce(ghost row: Row, list: seq<Assignment>, now: Time) returns (longer: seq<Assignment>)
      ensures AssignAll(row, longer) == Assign(AssignAll(row, list), KeepOrSetActivatedAt(now))
    {
      longer := list;
      if KeepOrSetActivatedAt(now) !in list {
        longer := Extend(row, list, KeepOrSetActivatedAt(now));
      } else {
        ActivatedStays(row, list, now);
      }
    }

    static method NewExpiry(ghost row: Row, list: seq<Assignment>, time: Time) returns (longer: seq<Assignment>)
      ensures AssignAll(row, longer) == AssignAll(row, list).(expiresAt := Some(At(time)))
    {
      FilterKeepsTheRest(row, list);
      longer := Extend(row, WithoutClear(list), SetExpiry(time));
    }

    static method PythonAssignments(row: Row, input: Input, now: Time, minutes: int) returns (list: seq<Assignment>)
      requires input.status.Some? ==> input.status.value.Exact?
      ensures AssignAll(row, list) == After(row, input.(extend := if input.extend.Some? then Some(minutes) else None), now)
    {
      list := FieldAssignments(row, input, now);
      if input.extend.Some? {
        list := StampOnce(row, list, now);
        list := NewExpiry(row, list, NextExpiry(row, now, minutes));
        if row.activationRequired && input.status != Some(Exact(Disabled)) {
          list := Extend(row, list, SetStatus(Active));
        }
      }
    }
  }

  /** A stamp that the statement sets stays set. */
  lemma {:induction false} ActivatedStays(row: Row, list: seq<Assignment>, now: Time)
    requires KeepOrSetActivatedAt(now) in list
    ensures AssignAll(row, list).activatedAt.Some?
    decreases |list|
  {
    var init, last := list[..|list| - 1], list[|list| - 1];
    assert list == init + [last];
    if last != KeepOrSetActivatedAt(now) {
      ActivatedStays(row, init, now);
    }
  }

  function WithoutClear(list: seq<Assignment>): seq<Assignment>
    decreases |list|
  {
    if list == [] then []
    else WithoutClear(list[..|list| - 1]) + if list[|list| - 1] == ClearExpiry then [] else [list[|list| - 1]]
  }

  predicate SameButExpiry(a: Row, b: Row) {
    a.(expiresAt := b.expiresAt) == b
  }

  /** Dropping the clearing of the expiry changes the expiry only. */
  lemma {:induction false} FilterKeepsTheRest(row: Row, list: seq<Assignment>)
    ensures SameButExpiry(AssignAll(row, WithoutClear(list)), AssignAll(row, list))
    decreases |list|
  {
    if list != [] {
      var init, last := list[..|list| - 1], list[|list| - 1];
      FilterKeepsTheRest(row, init);
      if last != ClearExpiry {
        AssignOne(row, WithoutClear(init), last);
        AssignIgnoresExpiry(AssignAll(row, WithoutClear(init)), AssignAll(row, init), last);
      } else {
        assert WithoutClear(list) == WithoutClear(init);
      }
    }
  }

  lemma AssignIgnoresExpiry(a: Row, b: Row, assignment: Assignment)
    requires SameButExpiry(a, b)
    ensures SameButExpiry(Assign(a, assignment), Assign(b, assignment))
  {
  }

  // ----- the twins ---------------------------------------------------------------------------

  /** The two services answer alike, rows and errors, exactly when the status is refused by both, or
      it is not padded and the duration, if any, is in range. */
  lemma TwinsAgreeIff(row: Option<Row>, input: Input, now: Time)
    ensures GoOutcome(row, input, now) == PythonOutcome(row, input, now)
            <==> || input.status == Some(NoStatus)
                 || (&& (input.status.Some? ==> input.status.value.Exact?)
                     && (input.extend.Some? ==> 1 <= input.extend.value <= MAX_MINUTES))
  {
    if input.extend.Some? && 1 <= input.extend.value <= MAX_MINUTES {
      assert input.(extend := Some(Max(1, Min(input.extend.value, MAX_MINUTES)))) == input;
    }
    if input.extend.None? {
      assert input.(extend := None) == input;
    }
  }

  // ----- access ------------------------------------------------------------------------------

  predicate NotExpired(row: Row, now: Time) {
    row.expiresAt.Some? && row.expiresAt.value.At? ==> now < row.expiresAt.value.time
  }

  datatype Side = Go | Python

  /** Go trims the stamp before testing it, Python does not. */
  predicate Activated(reader: Side, row: Row) {
    match row.activatedAt
    case None => false
    case Some(EmptyText) => false
    case Some(BlankText) => reader.Python?
    case Some(StampText(_)) => true
  }

  predicate WorkspaceEnabled(reader: Side, row: Row, now: Time) {
    row.status == Active && (!row.activationRequired || Activated(reader, row)) && NotExpired(row, now)
  }

  const EXTENSION := Input(None, None, None, None)

  function Extended(row: Row, now: Time, minutes: int): Row {
    After(row, EXTENSION.(extend := Some(minutes)), now)
  }

  // ----- the life of a tenant ----------------------------------------------------------------

  /** Everything that writes a tenant row after its INSERT. `Bootstrap` and `Migrate` run at start-up and touch
      the platform's own tenant; `Redeem` is the redemption of an activation code. */
  datatype Write =
    | GoUpdate(input: Input, now: Time)
    | PythonUpdate(input: Input, now: Time)
    | Redeem(now: Time, minutes: int)
    | Bootstrap(now: Time)
    | Migrate

  /** The INSERT of the platform's own tenant, and that of a registration. */
  function Created(isAdmin: bool, now: Time): Row {
    if isAdmin then Row(true, Active, true, false, Some(StampText(now)), None)
    else Row(false, Active, false, true, None, None)
  }

  function RowOf(outcome: Outcome, row: Row): Row {
    if outcome.Updated? then outcome.row else row
  }

  function Written(row: Row, w: Write): Row {
    match w
    case GoUpdate(input, now) => RowOf(GoOutcome(Some(row), input, now), row)
    case PythonUpdate(input, now) => RowOf(PythonOutcome(Some(row), input, now), row)
    case Redeem(now, minutes) =>
      row.(status := Active, activatedAt := Some(StampText(now)), expiresAt := Some(At(now + Max(1, minutes) * MINUTE)))
    case Bootstrap(now) =>
      if !row.isAdmin then row
      else Assign(row, KeepOrSetActivatedAt(now)).(aiEnabled := true, activationRequired := false)
    case Migrate => if row.isAdmin then row.(activationRequired := false) else row
  }

  function Life(row: Row, writes: seq<Write>): Row
    decreases |writes|
  {
    if writes == [] then row else Written(Life(row, writes[..|writes| - 1]), writes[|writes| - 1])
  }

  /** No blank activation stamp. */
  predicate RealStamp(row: Row) {
    row.activatedAt.Some? ==> row.activatedAt.value.StampText?
  }

  /** Whatever is written in whatever order, a row never gets a blank stamp, and the expiry stays readable. */
  lemma {:induction false} StampsAreReal(isAdmin: bool, created: Time, writes: seq<Write>)
    ensures var row := Life(Created(isAdmin, created), writes);
            RealStamp(row) && (row.expiresAt.Some? ==> row.expiresAt.value.At?)
    decreases |writes|
  {
    if writes != [] {
      StampsAreReal(isAdmin, created, writes[..|writes| - 1]);
      WriteKeepsReal(Life(Created(isAdmin, created), writes[..|writes| - 1]), writes[|writes| - 1]);
    }
  }

  lemma WriteKeepsReal(row: Row, w: Write)
    requires RealStamp(row) && (row.expiresAt.Some? ==> row.expiresAt.value.At?)
    ensures RealStamp(Written(row, w)) && (Written(row, w).expiresAt.Some? ==> Written(row, w).expiresAt.value.At?)
  {
  }

  function OutcomeOf(service: Side, row: Row, input: Input, now: Time): Outcome {
    match service
    case Go => GoOutcome(Some(row), input, now)
    case Python => PythonOutcome(Some(row), input, now)
  }

  predicate EndsActive(row: Row, input: Input) {
    if input.status.Some? then !input.status.value.NoStatus? && StatusOf(input.status.value) == Active
    else row.activationRequired || row.status == Active
  }

  /** On every row that the services have written, an extension accepted by either of them opens the workspace
      up to the new expiry, for both readers, exactly when the update sets the status to active, or leaves it
      and the tenant needs an activation or was active. */
  lemma ExtensionEnables(service: Side, reader: Side, isAdmin: bool, created: Time, writes: seq<Write>,
                         input: Input, now: Time, t: Time)
    requires input.extend.Some? && OutcomeOf(service, Life(Created(isAdmin, created), writes), input, now).Updated?
    ensures var row := Life(Created(isAdmin, created), writes);
            WorkspaceEnabled(reader, OutcomeOf(service, row, input, now).row, t)
            <==> EndsActive(row, input) && t < NextExpiry(row, now, Max(1, Min(input.extend.value, MAX_MINUTES)))
  {
    StampsAreReal(isAdmin, created, writes);
  }

  /** The stamp matters for rows that something else has written: with a stored blank stamp, which an extension
      keeps, an activation-required tenant stays closed. */
  lemma ExtensionEnablesIff(reader: Side, row: Row, input: Input, now: Time)
    requires row.activationRequired && input.extend.Some? && input.extend.value >= 1
    requires input.status.Some? ==> !input.status.value.NoStatus? && StatusOf(input.status.value) != Disabled
    ensures var after := After(row, input, now);
            WorkspaceEnabled(reader, after, now)
            <==> !after.activationRequired || row.activatedAt.None? || Activated(reader, row)
  {
  }

  /** Exactly which updates are accepted: something is given, the tenant exists, a given status is a status (Go
      trims it, Python does not), a given duration is in range (Go only), and the platform's own tenant is neither
      disabled nor made to need an activation. A refused one says the first of these that is wrong. */
  lemma AcceptedIff(service: Side, row: Option<Row>, input: Input, now: Time)
    ensures var badStatus := input.status.Some? && (input.status.value.NoStatus? || (service.Python? && input.status.value.Padded?));
            var badDuration := service.Go? && input.extend.Some? && !(1 <= input.extend.value <= 525_600);
            var nothing := input.status.None? && input.aiEnabled.None? && input.activationRequired.None? && input.extend.None?;
            var admin := row.Some? && row.value.isAdmin;
            var disables := input.status.Some? && !badStatus && input.status.value.status == Disabled;
            var outcome := if service.Go? then GoOutcome(row, input, now) else PythonOutcome(row, input, now);
            && (outcome.Updated? <==>
                  !badStatus && !badDuration && !nothing && row.Some?
                  && !(admin && (input.activationRequired == Some(true) || disables)))
            && (outcome.Rejected? ==>
                  outcome.problem == if badStatus then BadStatus else if badDuration then BadDuration
                                     else if nothing then NothingToUpdate else if row.None? then UnknownTenant
                                     else if input.activationRequired == Some(true) then AdminActivation else AdminDisabled)
  {
  }

  /** The columns after an accepted update, one by one: what is not given stays, except that an extension makes an
      activation-required tenant active, an extension or the end of the requirement stamps an unstamped one, and
      the latter alone takes the expiry away. */
  lemma ColumnsAfter(service: Side, row: Row, input: Input, now: Time)
    requires OutcomeOf(service, row, input, now).Updated?
    ensures var after := OutcomeOf(service, row, input, now).row;
            && after.isAdmin == row.isAdmin
            && after.aiEnabled == (if input.aiEnabled.Some? then input.aiEnabled.value else row.aiEnabled)
            && after.activationRequired == (if input.activationRequired.Some? then input.activationRequired.value
                                            else row.activationRequired)
            && (input.status.Some? ==> after.status == input.status.value.status)
            && (input.status.None? ==> after.status == if input.extend.Some? && row.activationRequired then Active else row.status)
            && (row.activatedAt.Some? ==> after.activatedAt == row.activatedAt)
            && (row.activatedAt.None? ==>
                  after.activatedAt == if input.extend.Some? || input.activationRequired == Some(false)
                                       then Some(StampText(now)) else None)
            && (input.extend.None? ==>
                  after.expiresAt == if input.activationRequired == Some(false) then None else row.expiresAt)
  {
  }

  /** A registered tenant is closed until something opens it, and has no AI; the platform's own is open and has. */
  lemma RegisteredIsClosed(reader: Side, created: Time, t: Time)
    ensures !WorkspaceEnabled(reader, Created(false, created), t) && !Created(false, created).aiEnabled
    ensures WorkspaceEnabled(reader, Created(true, created), t) && Created(true, created).aiEnabled
  {
  }

  /** Whatever is written on its row, a redeemed code opens a tenant for exactly its duration, of a minute at least. */
  lemma RedeemOpens(reader: Side, isAdmin: bool, created: Time, writes: seq<Write>, now: Time, minutes: int, t: Time)
    ensures var row := Life(Created(isAdmin, created), writes + [Redeem(now, minutes)]);
            WorkspaceEnabled(reader, row, t) <==> t < now + 60 * (if minutes < 1 then 1 else minutes)
  {
    assert (writes + [Redeem(now, minutes)])[..|writes|] == writes;
  }

  /** The platform's own tenant stays what it is: active, and never in need of an activation, however it is updated;
      its AI is on after every start of the service. */
  lemma {:induction false} AdminStaysOpen(created: Time, writes: seq<Write>)
    ensures var row := Life(Created(true, created), writes);
            && row.isAdmin && row.status == Active && !row.activationRequired && row.activatedAt.Some?
            && (writes != [] && writes[|writes| - 1].Bootstrap? ==> row.aiEnabled)
    decreases |writes|
  {
    if writes != [] {
      AdminStaysOpen(created, writes[..|writes| - 1]);
    }
  }

  /** No other tenant is touched at the start of the service. */
  lemma StartsTouchAdminOnly(row: Row, now: Time)
    requires !row.isAdmin
    ensures Written(row, Bootstrap(now)) == row && Written(row, Migrate) == row
  {
  }

  /** No write makes a registered tenant the platform's own. */
  lemma {:induction false} RegisteredStays(created: Time, writes: seq<Write>)
    ensures !Life(Created(false, created), writes).isAdmin
    decreases |writes|
  {
    if writes != [] {
      RegisteredStays(created, writes[..|writes| - 1]);
    }
  }

  /** An extension takes no access away at any moment exactly when the tenant had a readable expiry. A
      tenant without one had unlimited access, and gets an end date. */
  lemma ExtensionNeverShortensIff(row: Row, now: Time, minutes: int)
    requires minutes >= 1
    ensures (forall t: Time :: NotExpired(row, t) ==> NotExpired(Extended(row, now, minutes), t))
            <==> row.expiresAt.Some? && row.expiresAt.value.At?
  {
    var after := Extended(row, now, minutes);
    if !(row.expiresAt.Some? && row.expiresAt.value.At?) {
      var t := NextExpiry(row, now, minutes);
      assert NotExpired(row, t) && !NotExpired(after, t);
    }
  }

  // ----- sequences of extensions ---------------------------------------------------------------

  datatype Extension = Extension(at: Time, minutes: int)

  function ExtendAll(row: Row, extensions: seq<Extension>): Row
    decreases |extensions|
  {
    if extensions == [] then row
    else
      var last := extensions[|extensions| - 1];
      Extended(ExtendAll(row, extensions[..|extensions| - 1]), last.at, last.minutes)
  }

  /** Seconds granted by the extensions from position `from` on. */
  function Granted(extensions: seq<Extension>, from: nat): int
    requires from <= |extensions|
    decreases |extensions| - from
  {
    if from == |extensions| then 0 else extensions[from].minutes * MINUTE + Granted(extensions, from + 1)
  }

  lemma GrantedAppend(extensions: seq<Extension>, e: Extension, from: nat)
    requires from <= |extensions|
    ensures Granted(extensions + [e], from) == Granted(extensions, from) + e.minutes * MINUTE
    decreases |extensions| - from
  {
    if from < |extensions| {
      GrantedAppend(extensions, e, from + 1);
    } else {
      assert Granted(extensions + [e], from + 1) == 0;
    }
  }

  /** `time` is the end that counts: the greatest of the old expiry plus everything granted, and, for
      each extension, its moment plus what it and the later ones granted. */
  ghost predicate IsLatestEnd(time: Time, expiry: Option<Time>, extensions: seq<Extension>) {
    && (expiry.Some? ==> expiry.value + Granted(extensions, 0) <= time)
    && (forall j: nat | j < |extensions| :: extensions[j].at + Granted(extensions, j) <= time)
    && ((expiry.Some? && time == expiry.value + Granted(extensions, 0))
        || exists j: nat | j < |extensions| :: time == extensions[j].at + Granted(extensions, j))
  }

  function ReadableExpiry(row: Row): Option<Time> {
    if row.expiresAt.Some? && row.expiresAt.value.At? then Some(row.expiresAt.value.time) else None
  }

  /** After any sequence of extensions the expiry is the latest end, whatever the moments were. */
  lemma {:induction false} ExpiryIsLatestEnd(row: Row, extensions: seq<Extension>)
    requires extensions != []
    ensures var end := ReadableExpiry(ExtendAll(row, extensions));
            end.Some? && IsLatestEnd(end.value, ReadableExpiry(row), extensions)
    decreases |extensions|
  {
    var init, last := extensions[..|extensions| - 1], extensions[|extensions| - 1];
    assert extensions == init + [last];
    var end := ReadableExpiry(ExtendAll(row, extensions)).value;
    forall j: nat | j <= |init| ensures Granted(extensions, j) == Granted(init, j) + last.minutes * MINUTE {
      GrantedAppend(init, last, j);
    }
    assert Granted(init, |init|) == 0;
    if init == [] {
      assert extensions[0].at + Granted(extensions, 0) == last.at + last.minutes * MINUTE;
    } else {
      ExpiryIsLatestEnd(row, init);
      var before := ReadableExpiry(ExtendAll(row, init)).value;
      if before > last.at {
        assert end == before + last.minutes * MINUTE;
        if !(ReadableExpiry(row).Some? && before == ReadableExpiry(row).value + Granted(init, 0)) {
          var j: nat :| j < |init| && before == init[j].at + Granted(init, j);
          assert end == extensions[j].at + Granted(extensions, j);
        }
      } else {
        assert end == extensions[|init|].at + Granted(extensions, |init|);
      }
    }
  }
}
