/** The translation of parsed filters to SQL conditions with generated parameter
    names, its meaning under three-valued logic, and the plain boolean reading
    it is to have. */
module JqlSql {
  import opened Basics
  import opened JqlSyntax
  import opened JqlGrammar
  import opened SearchTerms
  import Like

  // ---- Rows of the joined list query ---------------------------------------

  datatype Person = Person(id: string, name: string)

  /** One issue with its platform, reporter and (left-joined) assignee. Only the
      assignee and the stored search vector can be absent. */
  datatype Row = Row(
    status: string, priority: string, platformId: string, platformKey: string,
    assignee: Option<Person>, reporterName: string, reporterEmail: string,
    labels: set<string>, createdAt: int, updatedAt: int,
    referenceNo: string, description: string, searchVector: Option<string>)

  /** What the database decides for itself: how it reads a timestamp literal and
      whether a stored vector satisfies a text-search query. */
  datatype Db = Db(instant: string -> int, textMatch: (string, string) -> bool)

  // ---- Conditions ----------------------------------------------------------

  datatype Column =
    | StatusCol | PriorityCol | PlatformIdCol | PlatformKeyCol | AssigneeIdCol | AssigneeNameCol
    | ReporterNameCol | ReporterEmailCol | ReferenceCol | DescriptionCol

  datatype TimeColumn = CreatedCol | UpdatedCol

  /** A column as it stands or under LOWER(). */
  datatype Operand = Plain(column: Column) | Folded(column: Column)

  datatype Cond =
    | Equal(lhs: Operand, param: string)
    | NotEqual(lhs: Operand, param: string)
    | InList(lhs: Operand, param: string)
    | ILike(column: Column, param: string)
    | IsNull(column: Column)
    | IsNotNull(column: Column)
    | AtLeast(time: TimeColumn, param: string)
    | AtMost(time: TimeColumn, param: string)
    | HasLabelIn(param: string)
    | VectorMatches(param: string)
    | VectorIsNull
    | Both(left: Cond, right: Cond)
    | Either(left: Cond, right: Cond)
    | Negated(inner: Cond)

  /** What a parameter name is bound to: `:name` or `:...name`. */
  datatype Binding = One(text: string) | Many(texts: seq<string>)

  type Params = map<string, Binding>

  datatype Truth = True | False | Unknown

  function OfBool(b: bool): Truth { if b then True else False }

  function Not3(t: Truth): Truth {
    match t case True => False case False => True case Unknown => Unknown
  }

  function And3(a: Truth, b: Truth): Truth {
    if a == False || b == False then False
    else if a == Unknown || b == Unknown then Unknown
    else True
  }

  function Or3(a: Truth, b: Truth): Truth { Not3(And3(Not3(a), Not3(b))) }

  /** The value of a column, None standing for NULL. */
  function ColumnValue(c: Column, row: Row): Option<string> {
    match c
    case StatusCol => Some(row.status)
    case PriorityCol => Some(row.priority)
    case PlatformIdCol => Some(row.platformId)
    case PlatformKeyCol => Some(row.platformKey)
    case AssigneeIdCol => if row.assignee.Some? then Some(row.assignee.value.id) else None
    case AssigneeNameCol => if row.assignee.Some? then Some(row.assignee.value.name) else None
    case ReporterNameCol => Some(row.reporterName)
    case ReporterEmailCol => Some(row.reporterEmail)
    case ReferenceCol => Some(row.referenceNo)
    case DescriptionCol => Some(row.description)
  }

  function OperandValue(o: Operand, row: Row): Option<string> {
    match ColumnValue(o.column, row)
    case None => None
    case Some(s) => Some(if o.Folded? then Lower(s) else s)
  }

  function TimeValue(c: TimeColumn, row: Row): int {
    if c == CreatedCol then row.createdAt else row.updatedAt
  }

  predicate BoundOne(ps: Params, name: string) { name in ps && ps[name].One? }

  predicate BoundMany(ps: Params, name: string) { name in ps && ps[name].Many? }

  predicate SomeLabelIn(labels: set<string>, wanted: seq<string>) {
    exists l :: l in labels && Lower(l) in wanted
  }

  /** Three-valued truth of a condition. A name without a suitable binding makes
      its condition unknown, so an unbound placeholder never selects a row. */
  function Eval(c: Cond, ps: Params, row: Row, db: Db): Truth {
    match c
    case Equal(o, p) =>
      if !BoundOne(ps, p) || OperandValue(o, row).None? then Unknown
      else OfBool(OperandValue(o, row).value == ps[p].text)
    case NotEqual(o, p) =>
      if !BoundOne(ps, p) || OperandValue(o, row).None? then Unknown
      else OfBool(OperandValue(o, row).value != ps[p].text)
    case InList(o, p) =>
      if !BoundMany(ps, p) || OperandValue(o, row).None? then Unknown
      else OfBool(OperandValue(o, row).value in ps[p].texts)
    case ILike(col, p) =>
      if !BoundOne(ps, p) || ColumnValue(col, row).None? then Unknown
      else OfBool(Like.MatchesFold(ColumnValue(col, row).value, ps[p].text))
    case IsNull(col) => OfBool(ColumnValue(col, row).None?)
    case IsNotNull(col) => OfBool(ColumnValue(col, row).Some?)
    case AtLeast(t, p) =>
      if !BoundOne(ps, p) then Unknown else OfBool(TimeValue(t, row) >= db.instant(ps[p].text))
    case AtMost(t, p) =>
      if !BoundOne(ps, p) then Unknown else OfBool(TimeValue(t, row) <= db.instant(ps[p].text))
    case HasLabelIn(p) =>
      if !BoundMany(ps, p) then Unknown else OfBool(SomeLabelIn(row.labels, ps[p].texts))
    case VectorMatches(p) =>
      if !BoundOne(ps, p) || row.searchVector.None? then Unknown
      else OfBool(db.textMatch(row.searchVector.value, ps[p].text))
    case VectorIsNull => OfBool(row.searchVector.None?)
    case Both(a, b) => And3(Eval(a, ps, row, db), Eval(b, ps, row, db))
    case Either(a, b) => Or3(Eval(a, ps, row, db), Eval(b, ps, row, db))
    case Negated(a) => Not3(Eval(a, ps, row, db))
  }

  /** The rows a query selects: every conjunct is TRUE. */
  predicate Selects(conds: seq<Cond>, ps: Params, row: Row, db: Db) {
    forall k :: 0 <= k < |conds| ==> Eval(conds[k], ps, row, db) == True
  }

  // ---- Compilation ---------------------------------------------------------

  function Digit(n: nat): char
    requires n < 10
  {
    ('0' as int + n) as char
  }

  function Decimal(n: nat): string {
    if n < 10 then [Digit(n)] else Decimal(n / 10) + [Digit(n % 10)]
  }

  /** The n-th generated parameter name. */
  function ParamName(n: nat): string { "jql" + Decimal(n) }

  function LowerAll(vs: seq<string>): (r: seq<string>)
    ensures |r| == |vs| && forall i :: 0 <= i < |vs| ==> r[i] == Lower(vs[i])
  {
    seq(|vs|, i requires 0 <= i < |vs| => Lower(vs[i]))
  }

  /** A clause, the bindings that go with it and the names it used up. */
  datatype Compiled = Compiled(cond: Cond, bindings: Params, used: nat)

  function Membership(o: Operand, op: JqlOp, vs: seq<string>, n: nat): Compiled
    requires vs != []
  {
    var p := ParamName(n);
    if op == In then Compiled(InList(o, p), map[p := Many(vs)], 1)
    else if op == Eq then Compiled(Equal(o, p), map[p := One(vs[0])], 1)
    else Compiled(NotEqual(o, p), map[p := One(vs[0])], 1)
  }

  function CompileAssignee(f: Filter, n: nat, me: string): Compiled
    requires f.values != []
  {
    var p := ParamName(n);
    var v := Lower(f.values[0]);
    if f.op == Tilde then
      Compiled(ILike(AssigneeNameCol, p), map[p := One(Like.Wrap(f.values[0]))], 1)
    else if f.op == In then
      Compiled(InList(Folded(AssigneeNameCol), p), map[p := Many(LowerAll(f.values))], 1)
    else if v == "me" then
      Compiled(if f.op == Eq then Equal(Plain(AssigneeIdCol), p)
               else Either(IsNull(AssigneeIdCol), NotEqual(Plain(AssigneeIdCol), p)),
               map[p := One(me)], 1)
    else if v == "unassigned" then
      Compiled(if f.op == Eq then IsNull(AssigneeIdCol) else IsNotNull(AssigneeIdCol), map[], 0)
    else
      Compiled(if f.op == Eq then Equal(Folded(AssigneeNameCol), p)
               else Either(IsNull(AssigneeIdCol), NotEqual(Folded(AssigneeNameCol), p)),
               map[p := One(v)], 1)
  }

  function CompileReporter(f: Filter, n: nat): Compiled
    requires f.values != []
  {
    var p := ParamName(n);
    if f.op == Tilde then
      Compiled(Either(ILike(ReporterNameCol, p), ILike(ReporterEmailCol, p)),
               map[p := One(Like.Wrap(f.values[0]))], 1)
    else if f.op == Eq then
      Compiled(Either(Equal(Folded(ReporterNameCol), p), Equal(Folded(ReporterEmailCol), p)),
               map[p := One(Lower(f.values[0]))], 1)
    else
      Compiled(Both(NotEqual(Folded(ReporterNameCol), p), NotEqual(Folded(ReporterEmailCol), p)),
               map[p := One(Lower(f.values[0]))], 1)
  }

  function CompileText(v: string, n: nat): Compiled {
    var like := ParamName(n);
    var likeBinding := One(Like.Wrap(Like.Escape(v)));
    if PrefixQuery(v) != "" then
      var tq := ParamName(n + 1);
      Compiled(Either(Either(ILike(ReferenceCol, like), VectorMatches(tq)),
                      Both(VectorIsNull, ILike(DescriptionCol, like))),
               map[like := likeBinding, tq := One(PrefixQuery(v))], 2)
    else
      Compiled(Either(ILike(ReferenceCol, like), ILike(DescriptionCol, like)), map[like := likeBinding], 1)
  }

  /** The clause for one filter when `n` names are already in use. `me` is the
      calling staff member's id. */
  function Compile(f: Filter, n: nat, me: string): Compiled
    requires f.values != []
  {
    match f.field
    case Status => Membership(Plain(StatusCol), f.op, f.values, n)
    case Priority => Membership(Plain(PriorityCol), f.op, f.values, n)
    case Platform => Membership(Plain(PlatformKeyCol), f.op, LowerAll(f.values), n)
    case Assignee => CompileAssignee(f, n, me)
    case Reporter => CompileReporter(f, n)
    case Label =>
      var p := ParamName(n);
      Compiled(if f.op == Neq then Negated(HasLabelIn(p)) else HasLabelIn(p),
               map[p := Many(LowerAll(f.values))], 1)
    case Created | Updated =>
      var p := ParamName(n);
      var col := if f.field == Created then CreatedCol else UpdatedCol;
      Compiled(if f.op == Ge then AtLeast(col, p) else AtMost(col, p), map[p := One(f.values[0])], 1)
    case Text => CompileText(f.values[0], n)
  }

  ghost predicate AllTyped(fs: seq<Filter>) {
    forall k :: 0 <= k < |fs| ==> WellTyped(fs[k])
  }

  function Clauses(fs: seq<Filter>, n: nat, me: string): (r: seq<Cond>)
    requires AllTyped(fs)
    ensures |r| == |fs|
  {
    if fs == [] then []
    else var c := Compile(fs[0], n, me); [c.cond] + Clauses(fs[1..], n + c.used, me)
  }

  function Bindings(fs: seq<Filter>, n: nat, me: string): Params
    requires AllTyped(fs)
  {
    if fs == [] then map[]
    else var c := Compile(fs[0], n, me); c.bindings + Bindings(fs[1..], n + c.used, me)
  }

  // ---- The plain boolean reading -------------------------------------------

  predicate TextReads(v: string, row: Row, db: Db) {
    || OccursFold(v, row.referenceNo)
    || (if PrefixQuery(v) == "" then OccursFold(v, row.description)
        else match row.searchVector
          case Some(vector) => db.textMatch(vector, PrefixQuery(v))
          case None => OccursFold(v, row.description))
  }

  /** `assignee = v`: the caller for `me`, nobody for `unassigned`, else a name. */
  predicate AssigneeIs(v: string, row: Row, me: string) {
    if Lower(v) == "me" then row.assignee.Some? && row.assignee.value.id == me
    else if Lower(v) == "unassigned" then row.assignee.None?
    else row.assignee.Some? && Lower(row.assignee.value.name) == Lower(v)
  }

  /** The row has the value `v` in the field, as `field = v` means it. */
  predicate FieldIs(f: Field, v: string, row: Row, me: string) {
    match f
    case Status => row.status == v
    case Priority => row.priority == v
    case Platform => row.platformKey == Lower(v)
    case Assignee => AssigneeIs(v, row, me)
    case Reporter => Lower(row.reporterName) == Lower(v) || Lower(row.reporterEmail) == Lower(v)
    case Label => exists l :: l in row.labels && Lower(l) == Lower(v)
    case Created | Updated | Text => false
  }

  /** `field IN (..., v, ...)`: the sentinels are plain names here. */
  predicate ListedIs(f: Field, v: string, row: Row, me: string) {
    if f == Assignee then row.assignee.Some? && Lower(row.assignee.value.name) == Lower(v)
    else FieldIs(f, v, row, me)
  }

  /** `field ~ v`. People are matched by pattern, text by occurrence. */
  predicate FieldLike(f: Field, v: string, row: Row, db: Db) {
    match f
    case Assignee => row.assignee.Some? && Like.MatchesFold(row.assignee.value.name, Like.Wrap(v))
    case Reporter =>
      Like.MatchesFold(row.reporterName, Like.Wrap(v)) || Like.MatchesFold(row.reporterEmail, Like.Wrap(v))
    case Text => TextReads(v, row, db)
    case _ => false
  }

  predicate Reads(f: Filter, row: Row, me: string, db: Db)
    requires f.values != []
  {
    var v := f.values[0];
    var time := if f.field == Created then row.createdAt else row.updatedAt;
    match f.op
    case Eq => FieldIs(f.field, v, row, me)
    case Neq => !FieldIs(f.field, v, row, me)
    case In => exists k :: 0 <= k < |f.values| && ListedIs(f.field, f.values[k], row, me)
    case Tilde => FieldLike(f.field, v, row, db)
    case Ge => time >= db.instant(v)
    case Le => time <= db.instant(v)
  }

  ghost predicate ReadsAll(fs: seq<Filter>, row: Row, me: string, db: Db)
    requires AllTyped(fs)
  {
    forall k :: 0 <= k < |fs| ==> Reads(fs[k], row, me, db)
  }

  // ---- The builder and the loop over it ------------------------------------

  class WhereBuilder {
    var conds: seq<Cond>
    var params: Params

    constructor ()
      ensures conds == [] && params == map[]
    {
      conds, params := [], map[];
    }

    /** Conjoins a clause; its parameters join the query's one parameter map, a
        name used twice keeping the later value. */
    method AndWhere(cond: Cond, bindings: Params)
      modifies this
      ensures conds == old(conds) + [cond] && params == old(params) + bindings
    {
      conds := conds + [cond];
      params := params + bindings;
    }
  }

  /** Compiling the first of the remaining filters and then the rest. */
  lemma AppliedStep(conds: seq<Cond>, ps: Params, fs: seq<Filter>, n: nat, me: string)
    requires fs != [] && AllTyped(fs)
    ensures var c := Compile(fs[0], n, me);
            && AllTyped(fs[1..])
            && conds + Clauses(fs, n, me) == conds + [c.cond] + Clauses(fs[1..], n + c.used, me)
            && ps + Bindings(fs, n, me) == ps + c.bindings + Bindings(fs[1..], n + c.used, me)
  {
    hide Compile;
    var c := Compile(fs[0], n, me);
    var later := Bindings(fs[1..], n + c.used, me);
    assert ps + (c.bindings + later) == ps + c.bindings + later;
  }

  /** A query with `conds` and `ps` becomes the one with `conds1` and `ps1` once
      the filters `fs` are applied to it. */
  ghost predicate Ahead(conds: seq<Cond>, ps: Params, fs: seq<Filter>, n: nat, me: string, conds1: seq<Cond>,
                        ps1: Params)
  {
    && AllTyped(fs)
    && conds + Clauses(fs, n, me) == conds1 && ps + Bindings(fs, n, me) == ps1
  }

  lemma AheadStep(conds: seq<Cond>, ps: Params, fs: seq<Filter>, i: nat, n: nat, me: string, conds1: seq<Cond>,
                  ps1: Params)
    requires i < |fs| && Ahead(conds, ps, fs[i..], n, me, conds1, ps1)
    ensures WellTyped(fs[i])
    ensures var c := Compile(fs[i], n, me);
            Ahead(conds + [c.cond], ps + c.bindings, fs[i + 1..], n + c.used, me, conds1, ps1)
  {
    hide Compile, Clauses, Bindings, WellTyped;
    var rest := fs[i..];
    assert rest[0] == fs[i] && rest[1..] == fs[i + 1..];
    AppliedStep(conds, ps, rest, n, me);
  }

  method ApplyJqlFilters(qb: WhereBuilder, filters: seq<Filter>, staffId: string)
    requires AllTyped(filters)
    modifies qb
    ensures qb.conds == old(qb.conds) + Clauses(filters, 0, staffId)
    ensures qb.params == old(qb.params) + Bindings(filters, 0, staffId)
  {
    var n: nat := 0;
    var i := 0;
    ghost var conds1, ps1 := qb.conds + Clauses(filters, 0, staffId), qb.params + Bindings(filters, 0, staffId);
    assert filters[0..] == filters;
    hide Compile, Clauses, Bindings, Ahead;
    while i < |filters|
      invariant 0 <= i <= |filters|
      invariant Ahead(qb.conds, qb.params, filters[i..], n, staffId, conds1, ps1)
    {
      AheadStep(qb.conds, qb.params, filters, i, n, staffId, conds1, ps1);
      var clause := Compile(filters[i], n, staffId);
      qb.AndWhere(clause.cond, clause.bindings);
      n := n + clause.used;
      i := i + 1;
    }
    NothingAhead(qb.conds, qb.params, filters[i..], n, staffId, conds1, ps1);
  }

  lemma NothingAhead(conds: seq<Cond>, ps: Params, fs: seq<Filter>, n: nat, me: string, conds1: seq<Cond>, ps1: Params)
    requires fs == [] && Ahead(conds, ps, fs, n, me, conds1, ps1)
    ensures conds == conds1 && ps == ps1
  {
    NothingLeft(fs, n, me);
    hide Clauses, Bindings;
  }

  lemma NothingLeft(fs: seq<Filter>, n: nat, me: string)
    requires fs == []
    ensures Clauses(fs, n, me) == [] && Bindings(fs, n, me) == map[]
  {
  }
}
