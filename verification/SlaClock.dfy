/** The SLA window of an issue, once as the service computes it and once as the
    database does, and the checks a platform's policy passes when it is set. */
module SlaClock {
  import opened Basics
  import opened Access
  import opened Lifecycle

  const MS_PER_HOUR: real := 3600000.0

  /** A number as JavaScript has it: finite, or NaN or an infinity. */
  datatype Number = Finite(value: real) | NotFinite

  // ---- Configuration -------------------------------------------------------

  function HoursFromEnv(raw: Option<Number>, fallback: real): real {
    if raw.Some? && raw.value.Finite? && raw.value.value > 0.0 then raw.value.value else fallback
  }

  function FractionFromEnv(raw: Option<Number>): (f: real)
    ensures 0.0 < f < 1.0
  {
    if raw.Some? && raw.value.Finite? && 0.0 < raw.value.value < 1.0 then raw.value.value else 0.8
  }

  /** The environment's hours for each priority and its at-risk fraction. */
  datatype Env = Env(critical: Option<Number>, high: Option<Number>, medium: Option<Number>, low: Option<Number>,
                     fraction: Option<Number>)

  function TargetHours(env: Env, p: Priority): (h: real)
    ensures h > 0.0
  {
    match p
    case Critical => HoursFromEnv(env.critical, 4.0)
    case High => HoursFromEnv(env.high, 24.0)
    case Medium => HoursFromEnv(env.medium, 72.0)
    case Low => HoursFromEnv(env.low, 168.0)
  }

  /** A platform's overrides; absent, or partial. */
  type Policy = Option<map<Priority, Number>>

  function PriorityNamed(key: string): Option<Priority> {
    if key == "LOW" then Some(Low)
    else if key == "MEDIUM" then Some(Medium)
    else if key == "HIGH" then Some(High)
    else if key == "CRITICAL" then Some(Critical)
    else None
  }

  datatype PolicyError = UnknownPriority(key: string) | HoursOutOfRange(key: string)

  predicate AcceptableHours(n: Number) { n.Finite? && 0.0 < n.value <= 8760.0 }

  /** Every override of a stored policy is a sane number of hours, and a stored
      policy overrides something. */
  predicate ValidPolicy(policy: Policy) {
    policy.Some? ==> policy.value != map[] && forall p <- policy.value :: AcceptableHours(policy.value[p])
  }

  predicate EntryAcceptable(e: (string, Number)) {
    PriorityNamed(e.0).Some? && AcceptableHours(e.1)
  }

  function PolicyOf(entries: seq<(string, Number)>): map<Priority, Number>
    requires forall k :: 0 <= k < |entries| ==> PriorityNamed(entries[k].0).Some?
  {
    if entries == [] then map[]
    else PolicyOf(entries[..|entries| - 1])[PriorityNamed(entries[|entries| - 1].0).value := entries[|entries| - 1].1]
  }

  function EntryError(e: (string, Number)): PolicyError {
    if PriorityNamed(e.0).None? then UnknownPriority(e.0) else HoursOutOfRange(e.0)
  }

  /** Entry `k` is the first one refused, for the reason `e`. */
  predicate FirstBad(entries: seq<(string, Number)>, k: nat, e: PolicyError) {
    && k < |entries| && !EntryAcceptable(entries[k]) && e == EntryError(entries[k])
    && forall j :: 0 <= j < k ==> EntryAcceptable(entries[j])
  }

  /** Checks a policy about to be stored, entry by entry. */
  method ValidateSlaPolicy(policy: Option<seq<(string, Number)>>) returns (r: Result<Policy, PolicyError>)
    ensures policy.None? ==> r == Ok(None)
    ensures r.Ok? ==> ValidPolicy(r.value)
    ensures r.Ok? <==> policy.Some? ==> forall k :: 0 <= k < |policy.value| ==> EntryAcceptable(policy.value[k])
    ensures r.Ok? && policy.Some? ==>
      (forall k :: 0 <= k < |policy.value| ==> PriorityNamed(policy.value[k].0).Some?)
      && r.value == if policy.value == [] then None else Some(PolicyOf(policy.value))
    ensures r.Err? ==> policy.Some? && exists k :: 0 <= k < |policy.value| && FirstBad(policy.value, k, r.error)
  {
    if policy.None? {
      return Ok(None);
    }
    var entries := policy.value;
    var out: map<Priority, Number> := map[];
    for i := 0 to |entries|
      invariant forall k :: 0 <= k < i ==> EntryAcceptable(entries[k])
      invariant out == PolicyOf(entries[..i])
      invariant forall p <- out :: AcceptableHours(out[p])
      invariant i > 0 ==> out != map[]
    {
      var (key, hours) := entries[i];
      var p := PriorityNamed(key);
      if p.None? {
        assert FirstBad(entries, i, UnknownPriority(key));
        return Err(UnknownPriority(key));
      }
      if !AcceptableHours(hours) {
        assert FirstBad(entries, i, HoursOutOfRange(key));
        return Err(HoursOutOfRange(key));
      }
      assert entries[..i + 1][..i] == entries[..i];
      out := out[p.value := hours];
      assert p.value in out;
    }
    assert entries[..|entries|] == entries;
    r := Ok(if out == map[] then None else Some(out));
  }

  // ---- In the service ------------------------------------------------------

  datatype SlaState = OnTrack | AtRisk | Breached | Untracked

  function WindowHours(p: Priority, policy: Policy, env: Env): (h: real)
    ensures h > 0.0
  {
    if policy.Some? && p in policy.value && policy.value[p].Finite? && policy.value[p].value > 0.0
    then policy.value[p].value
    else TargetHours(env, p)
  }

  /** What the computation looks at of an issue. */
  datatype SlaInput = SlaInput(status: Status, priority: Priority, createdAt: Time, slaStartedAt: Option<Time>,
                               policy: Policy)

  function Baseline(i: SlaInput): Time {
    if i.slaStartedAt.Some? then i.slaStartedAt.value else i.createdAt
  }

  function WindowMs(i: SlaInput, env: Env): (w: real)
    ensures w > 0.0
  {
    WindowHours(i.priority, i.policy, env) * MS_PER_HOUR
  }

  function Part(w: real, fraction: real): (r: real)
    requires w > 0.0 && 0.0 < fraction < 1.0
    ensures r < w
  {
    assert w * (1.0 - fraction) > 0.0;
    w * fraction
  }

  /** How much of the window passes before an issue counts as at risk. */
  function RiskMs(i: SlaInput, env: Env): real { Part(WindowMs(i, env), FractionFromEnv(env.fraction)) }

  function ComputeSla(i: SlaInput, env: Env, now: Time): (Time, SlaState) {
    var due := Baseline(i) + WindowMs(i, env);
    var elapsed := now - Baseline(i);
    if !IsOpen(i.status) then (due, Untracked)
    else if elapsed >= WindowMs(i, env) then (due, Breached)
    else if elapsed >= RiskMs(i, env) then (due, AtRisk)
    else (due, OnTrack)
  }

  // ---- In the database -----------------------------------------------------

  /** `sla_policy ->> priority` as a numeric, NULL when absent. A policy holds
      only finite numbers once stored as JSON; NaN and infinities are stored NULL. */
  function PolicyHours(p: Priority, policy: Policy): Option<real> {
    if policy.Some? && p in policy.value && policy.value[p].Finite? then Some(policy.value[p].value) else None
  }

  /** COALESCE(CASE WHEN hours > 0 THEN hours ELSE NULL END, default). */
  function SqlHours(p: Priority, policy: Policy, env: Env): real {
    match PolicyHours(p, policy)
    case Some(h) => if h > 0.0 then h else TargetHours(env, p)
    case None => TargetHours(env, p)
  }

  /** The due timestamp, NULL when the baseline is. */
  function SqlDue(i: SlaInput, env: Env): Option<Time> {
    match i.slaStartedAt
    case None => None
    case Some(start) => Some(start + SqlHours(i.priority, i.policy, env) * MS_PER_HOUR)
  }

  predicate SqlOpen(i: SlaInput) { i.status in {New, InProgress, OnHold, Reopened} }

  /** now() >= due, TRUE only. */
  predicate SqlOverdue(i: SlaInput, env: Env, now: Time) {
    SqlOpen(i) && SqlDue(i, env).Some? && now >= SqlDue(i, env).value
  }

  /** now() < due AND now() >= start + (due - start) * fraction, TRUE only. */
  predicate SqlAtRisk(i: SlaInput, env: Env, now: Time) {
    && SqlOpen(i) && SqlDue(i, env).Some?
    && now < SqlDue(i, env).value
    && now >= i.slaStartedAt.value + (SqlDue(i, env).value - i.slaStartedAt.value) * FractionFromEnv(env.fraction)
  }

  // ---- They agree ----------------------------------------------------------

  lemma SameWindow(p: Priority, policy: Policy, env: Env)
    ensures SqlHours(p, policy, env) == WindowHours(p, policy, env)
  {
  }

  /** The database calls an issue overdue or at risk exactly when the service
      does, for every policy, stored valid or not, as long as the issue has a
      baseline. */
  lemma SqlAgrees(i: SlaInput, env: Env, now: Time)
    requires i.slaStartedAt.Some?
    ensures SqlOverdue(i, env, now) <==> ComputeSla(i, env, now).1 == Breached
    ensures SqlAtRisk(i, env, now) <==> ComputeSla(i, env, now).1 == AtRisk
  {
  }

  /** For a row of any shape, with a baseline or without one, the two agree exactly
      when it has a baseline, is not open, or was created too recently to be at risk:
      without a baseline the database counts nothing, and the service falls back on
      the creation time. */
  lemma SqlAgreesIff(i: SlaInput, env: Env, now: Time)
    ensures ((SqlOverdue(i, env, now) <==> ComputeSla(i, env, now).1 == Breached)
             && (SqlAtRisk(i, env, now) <==> ComputeSla(i, env, now).1 == AtRisk))
       <==> (i.slaStartedAt.Some? || !IsOpen(i.status)
             || now - i.createdAt < RiskMs(i, env))
  {
    if i.slaStartedAt.Some? {
      SqlAgrees(i, env, now);
    } else {
      hide WindowMs, FractionFromEnv, Part;
    }
  }

  function Overdue(rows: seq<SlaInput>, env: Env, now: Time): nat {
    if rows == [] then 0 else (if SqlOverdue(rows[0], env, now) then 1 else 0) + Overdue(rows[1..], env, now)
  }

  function NearlyDue(rows: seq<SlaInput>, env: Env, now: Time): nat {
    if rows == [] then 0 else (if SqlAtRisk(rows[0], env, now) then 1 else 0) + NearlyDue(rows[1..], env, now)
  }

  /** The rows of `rows` in SLA state `s`, as the service computes it. */
  function InState(rows: seq<SlaInput>, s: SlaState, env: Env, now: Time): seq<SlaInput> {
    if rows == [] then []
    else (if ComputeSla(rows[0], env, now).1 == s then [rows[0]] else []) + InState(rows[1..], s, env, now)
  }

  /** The dashboard's two counts are the numbers of issues the service shows as
      breached and as at risk. */
  lemma {:induction false} DashboardCounts(rows: seq<SlaInput>, env: Env, now: Time)
    requires forall k :: 0 <= k < |rows| ==> rows[k].slaStartedAt.Some?
    ensures Overdue(rows, env, now) == |InState(rows, Breached, env, now)|
    ensures NearlyDue(rows, env, now) == |InState(rows, AtRisk, env, now)|
  {
    if rows != [] {
      SqlAgrees(rows[0], env, now);
      DashboardCounts(rows[1..], env, now);
    }
  }

  function Rank(s: SlaState): nat {
    match s case Untracked => 0 case OnTrack => 0 case AtRisk => 1 case Breached => 2
  }

  /** With everything else fixed, time moves an issue only towards a breach, and
      every open issue does breach, at its due time and not before. */
  lemma OnlyForward(i: SlaInput, env: Env, now: Time, later: Time)
    requires now <= later
    ensures Rank(ComputeSla(i, env, now).1) <= Rank(ComputeSla(i, env, later).1)
    ensures IsOpen(i.status) ==> (ComputeSla(i, env, now).1 == Breached <==> now >= ComputeSla(i, env, now).0)
  {
  }

  // ---- How long the windows are ------------------------------------------------

  function EnvHours(env: Env, p: Priority): Option<Number> {
    match p case Critical => env.critical case High => env.high case Medium => env.medium case Low => env.low
  }

  /** A positive, finite number. */
  predicate Usable(n: Option<Number>) { n.Some? && n.value.Finite? && n.value.value > 0.0 }

  /** The window is what the platform's policy says for the priority, or else the
      environment, where they say something usable; and otherwise 4, 24, 72 or 168
      hours. An open issue is at risk from a fraction of it on, four fifths unless the
      environment has another below one. */
  lemma DueTimes(i: SlaInput, env: Env, now: Time)
    ensures var start := if i.slaStartedAt.Some? then i.slaStartedAt.value else i.createdAt;
            var own :=
              if i.policy.Some? && i.priority in i.policy.value then Some(i.policy.value[i.priority]) else None;
            var hours :=
              if Usable(own) then own.value.value
              else if Usable(EnvHours(env, i.priority)) then EnvHours(env, i.priority).value.value
              else match i.priority case Critical => 4.0 case High => 24.0 case Medium => 72.0 case Low => 168.0;
            var fraction :=
              if Usable(env.fraction) && env.fraction.value.value < 1.0 then env.fraction.value.value else 0.8;
            var (due, state) := ComputeSla(i, env, now);
            && due == start + hours * 3600000.0
            && state == if i.status == Resolved || i.status == Closed then Untracked
                        else if now >= due then Breached
                        else if now >= start + (hours * 3600000.0) * fraction then AtRisk
                        else OnTrack
  {
  }

  /** A policy entry is accepted exactly when it names a priority and gives it more
      than nothing and at most a year of hours; otherwise the first of the two that
      fails is what the error says. */
  lemma EntriesAccepted(e: (string, Number))
    ensures EntryAcceptable(e) <==>
            (exists p: Priority :: e.0 == PriorityName(p)) && e.1.Finite? && 0.0 < e.1.value <= 8760.0
    ensures forall p: Priority :: PriorityNamed(e.0) == Some(p) <==> e.0 == PriorityName(p)
    ensures EntryError(e) ==
            if exists p: Priority :: e.0 == PriorityName(p) then HoursOutOfRange(e.0) else UnknownPriority(e.0)
  {
    NamesDiffer();
    forall p: Priority ensures PriorityNamed(e.0) == Some(p) <==> e.0 == PriorityName(p) {
      match p case Critical => case High => case Medium => case Low =>
    }
  }

  lemma NamesDiffer()
    ensures "LOW" != "MEDIUM" && "LOW" != "HIGH" && "LOW" != "CRITICAL"
    ensures "MEDIUM" != "HIGH" && "MEDIUM" != "CRITICAL" && "HIGH" != "CRITICAL"
  {
    assert "LOW"[0] != "MEDIUM"[0] && "LOW"[0] != "HIGH"[0] && "LOW"[0] != "CRITICAL"[0];
    assert "MEDIUM"[0] != "HIGH"[0] && "MEDIUM"[0] != "CRITICAL"[0] && "HIGH"[0] != "CRITICAL"[0];
  }

  /** Of several entries for a priority the stored policy has the last. */
  lemma {:induction false} PolicyHasTheLast(entries: seq<(string, Number)>, k: nat)
    requires forall j :: 0 <= j < |entries| ==> PriorityNamed(entries[j].0).Some?
    requires k < |entries|
    requires forall j :: k < j < |entries| ==> PriorityNamed(entries[j].0) != PriorityNamed(entries[k].0)
    ensures var p := PriorityNamed(entries[k].0).value;
            p in PolicyOf(entries) && PolicyOf(entries)[p] == entries[k].1
    decreases |entries|
  {
    hide PriorityNamed;
    if k < |entries| - 1 {
      PolicyHasTheLast(entries[..|entries| - 1], k);
    }
  }

  /** And it has no other priorities than are named. */
  lemma {:induction false} PolicyHasNoOther(entries: seq<(string, Number)>, p: Priority)
    requires forall j :: 0 <= j < |entries| ==> PriorityNamed(entries[j].0).Some?
    ensures p in PolicyOf(entries) <==> exists j :: 0 <= j < |entries| && PriorityNamed(entries[j].0) == Some(p)
    decreases |entries|
  {
    hide PriorityNamed;
    if entries != [] {
      PolicyHasNoOther(entries[..|entries| - 1], p);
    }
  }
}
