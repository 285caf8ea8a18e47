/** `cmp_sql_row@1`: plans that undo a single-row INSERT, UPDATE or DELETE, the statements they become, and
    what running those does to a table. */
module SqlInverse {
  import opened Options

  type Col = string

  datatype Val = Null | Text(s: string) | Num(n: real) | Bool(b: bool)

  /** A record: its members in the order they were first assigned. */
  type Record<V> = seq<(Col, V)>

  /** A row gives every column of its table a value; a table is a set of rows. */
  type Row = map<Col, Val>
  type Table = set<Row>

  datatype Verb = Insert | Update | Delete

  /** `pre` and `post` are `result.pre` and `result.post`. */
  datatype Receipt = Receipt(
    verb: Verb, table: string, pkCol: Col, bindings: map<string, Val>, resultId: Val, pre: Record<Val>, post: Record<Val>)

  datatype Ref = Binding(name: string) | ResultId | Pre(col: Col) | Post(col: Col)

  datatype Step = Step(verb: Verb, sets: Record<Ref>, wheres: Record<Ref>, values: Record<Ref>)

  // ---------------------------------------------------------------- records

  function Get<V>(record: Record<V>, col: Col): Option<V> {
    if record == [] then None
    else if record[0].0 == col then Some(record[0].1)
    else Get(record[1..], col)
  }

  /** Assigning a member replaces it where it stands, or adds it at the end. */
  function Put<V>(record: Record<V>, col: Col, v: V): Record<V> {
    if record == [] then [(col, v)]
    else if record[0].0 == col then [(col, v)] + record[1..]
    else [record[0]] + Put(record[1..], col, v)
  }

  ghost predicate DistinctNames<V>(record: Record<V>) {
    forall i, j :: 0 <= i < j < |record| ==> record[i].0 != record[j].0
  }

  lemma {:induction false} GetPut<V(!new)>(record: Record<V>, col: Col, v: V)
    ensures forall c :: Get(Put(record, col, v), c) == if c == col then Some(v) else Get(record, c)
    ensures forall i :: 0 <= i < |Put(record, col, v)| ==>
              Put(record, col, v)[i].0 == col || exists k :: 0 <= k < |record| && record[k].0 == Put(record, col, v)[i].0
  {
    if record != [] && record[0].0 != col {
      GetPut(record[1..], col, v);
      var later := Put(record[1..], col, v);
      assert Put(record, col, v)[1..] == later;
      forall i | 0 <= i < |Put(record, col, v)|
        ensures Put(record, col, v)[i].0 == col || exists k :: 0 <= k < |record| && record[k].0 == Put(record, col, v)[i].0
      {
        if i > 0 && later[i - 1].0 != col {
          var k :| 0 <= k < |record[1..]| && record[1..][k].0 == later[i - 1].0;
          assert record[k + 1].0 == Put(record, col, v)[i].0;
        }
      }
    }
  }

  lemma {:induction false} PutDistinct<V(!new)>(record: Record<V>, col: Col, v: V)
    requires DistinctNames(record)
    ensures DistinctNames(Put(record, col, v))
  {
    if record != [] && record[0].0 != col {
      PutDistinct(record[1..], col, v);
      GetPut(record[1..], col, v);
      var later := Put(record[1..], col, v);
      forall i | 0 <= i < |later| ensures later[i].0 != record[0].0 {
        if later[i].0 != col {
          var k :| 0 <= k < |record[1..]| && record[1..][k].0 == later[i].0;
          assert record[k + 1].0 == later[i].0;
        }
      }
    }
  }

  /** In a record without repeated names every member is the one found under its name. */
  lemma {:induction false} GetMember<V>(record: Record<V>, i: nat)
    requires DistinctNames(record) && i < |record|
    ensures Get(record, record[i].0) == Some(record[i].1)
  {
    if i > 0 { GetMember(record[1..], i - 1); }
  }

  lemma {:induction false} GetFound<V>(record: Record<V>, col: Col) returns (i: nat)
    requires Get(record, col).Some?
    ensures i < |record| && record[i] == (col, Get(record, col).value)
  {
    if record[0].0 == col {
      i := 0;
    } else {
      i := GetFound(record[1..], col);
      i := i + 1;
    }
  }

  // ---------------------------------------------------------------- planForSql

  function PkRef(r: Receipt): Ref {
    if "pk" in r.bindings then Binding("pk") else if "id" in r.bindings then Binding("id") else ResultId
  }

  function Resolve(r: Receipt, ref: Ref): Val {
    match ref
    case Binding(name) => if name in r.bindings then r.bindings[name] else Null
    case ResultId => r.resultId
    case Pre(col) => if Get(r.pre, col).Some? then Get(r.pre, col).value else Null
    case Post(col) => if Get(r.post, col).Some? then Get(r.post, col).value else Null
  }

  function PutAll(base: Record<Ref>, members: Record<Val>, refTo: Col -> Ref): Record<Ref> {
    if members == [] then base
    else
      var last := members[|members| - 1].0;
      Put(PutAll(base, members[..|members| - 1], refTo), last, refTo(last))
  }

  function PreRef(col: Col): Ref { Pre(col) }

  function PostRef(col: Col): Ref { Post(col) }

  function PreRefs(r: Receipt): Record<Ref> {
    var all := PutAll([], r.pre, PreRef);
    if all == [] then [(r.pkCol, PkRef(r))] else all
  }

  function PlanSpec(r: Receipt): Step {
    match r.verb
    case Insert => Step(Delete, [], [(r.pkCol, PkRef(r))], [])
    case Update => Step(Update, PreRefs(r), PutAll([(r.pkCol, PkRef(r))], r.post, PostRef), [])
    case Delete => Step(Insert, [], [], PreRefs(r))
  }

  /** `planForSql`: one member at a time. */
  method PlanForSql(r: Receipt) returns (step: Step)
    ensures step == PlanSpec(r)
  {
    if r.verb == Insert { return Step(Delete, [], [(r.pkCol, PkRef(r))], []); }
    var own: Record<Ref> := [];
    for i := 0 to |r.pre|
      invariant own == PutAll([], r.pre[..i], PreRef)
    {
      assert r.pre[..i + 1][..i] == r.pre[..i];
      own := Put(own, r.pre[i].0, Pre(r.pre[i].0));
    }
    assert r.pre[..|r.pre|] == r.pre;
    if |own| == 0 { own := Put(own, r.pkCol, PkRef(r)); }
    if r.verb == Delete { return Step(Insert, [], [], own); }
    var wheres := [(r.pkCol, PkRef(r))];
    for i := 0 to |r.post|
      invariant wheres == PutAll([(r.pkCol, PkRef(r))], r.post[..i], PostRef)
    {
      assert r.post[..i + 1][..i] == r.post[..i];
      wheres := Put(wheres, r.post[i].0, Post(r.post[i].0));
    }
    assert r.post[..|r.post|] == r.post;
    return Step(Update, own, wheres, []);
  }

  function ResolveAll(r: Receipt, refs: Record<Ref>): (vals: Record<Val>)
    ensures |vals| == |refs| && forall i :: 0 <= i < |refs| ==> vals[i] == (refs[i].0, Resolve(r, refs[i].1))
  {
    seq(|refs|, i requires 0 <= i < |refs| => (refs[i].0, Resolve(r, refs[i].1)))
  }

  // ---------------------------------------------------------------- assembleSql

  function IdentStart(c: char): bool {
    'A' <= c <= 'Z' || 'a' <= c <= 'z' || c == '_'
  }

  /** What `quoteIdent` lets through. */
  predicate IsIdent(name: string) {
    name != "" && IdentStart(name[0]) && forall i :: 0 <= i < |name| ==> IdentStart(name[i]) || '0' <= name[i] <= '9'
  }

  /** A letter or a figure of ASCII, or the underscore, by its code. */
  predicate WordCode(code: int) {
    65 <= code <= 90 || 97 <= code <= 122 || 48 <= code <= 57 || code == 95
  }

  /** Identifiers are letters, figures and underscores, and begin with no figure. */
  lemma IdentExact(name: string)
    ensures IsIdent(name) <==>
              && |name| > 0 && !(48 <= name[0] as int <= 57)
              && forall i :: 0 <= i < |name| ==> WordCode(name[i] as int)
  {
    forall i | 0 <= i < |name| ensures WordCode(name[i] as int) <==> IdentStart(name[i]) || '0' <= name[i] <= '9' {
      assert 'A' as int == 65 && 'Z' as int == 90 && 'a' as int == 97 && 'z' as int == 122;
    }
  }

  predicate AllIdents(record: Record<Val>) {
    forall i :: 0 <= i < |record| ==> IsIdent(record[i].0)
  }

  /** A statement with placeholders: the columns of SET (or of VALUES) and of WHERE in the order of the text,
      and the parameters in the order they are bound. */
  datatype Sql = Sql(verb: Verb, table: string, setCols: seq<Col>, whereCols: seq<Col>, params: seq<Val>)

  /** `assembleSql`; `None` is VR3009. */
  method AssembleSql(verb: Verb, table: string, sets: Record<Val>, wheres: Record<Val>, values: Record<Val>)
    returns (sql: Option<Sql>)
    ensures sql.Some? <==>
              && IsIdent(table)
              && (verb != Insert ==> wheres != [] && forall i :: 0 <= i < |wheres| ==> IsIdent(wheres[i].0))
              && (verb == Update ==> sets != [] && forall i :: 0 <= i < |sets| ==> IsIdent(sets[i].0))
              && (verb == Insert ==> values != [] && forall i :: 0 <= i < |values| ==> IsIdent(values[i].0))
    ensures sql.Some? ==>
              && sql.value.verb == verb && sql.value.table == table
              && Bound(sql.value.setCols, sql.value.params, 0)
                 == (if verb == Insert then values else if verb == Update then sets else [])
              && Bound(sql.value.whereCols, sql.value.params, |sql.value.setCols|) == (if verb == Insert then [] else wheres)
              && |sql.value.params| == |sql.value.setCols| + |sql.value.whereCols|
  {
    if !IsIdent(table) { return None; }
    var first := if verb == Insert then values else if verb == Update then sets else [];
    var second := if verb == Insert then [] else wheres;
    if (verb != Delete && |first| == 0) || (verb != Insert && |second| == 0) { return None; }
    if !AllIdents(first) || !AllIdents(second) { return None; }
    var setCols: seq<Col>, whereCols: seq<Col>, params: seq<Val> := [], [], [];
    for i := 0 to |first|
      invariant |setCols| == |params| == i
      invariant forall k :: 0 <= k < i ==> (setCols[k], params[k]) == first[k]
    {
      setCols, params := setCols + [first[i].0], params + [first[i].1];
    }
    for i := 0 to |second|
      invariant |whereCols| == i && |params| == |first| + i
      invariant forall k :: 0 <= k < |first| ==> (setCols[k], params[k]) == first[k]
      invariant forall k :: 0 <= k < i ==> (whereCols[k], params[|first| + k]) == second[k]
    {
      whereCols, params := whereCols + [second[i].0], params + [second[i].1];
    }
    return Some(Sql(verb, table, setCols, whereCols, params));
  }

  /** The columns with the parameters their placeholders take, the first of them at `from`. */
  function Bound(cols: seq<Col>, params: seq<Val>, from: nat): (r: Record<Val>) {
    seq(|cols|, i requires 0 <= i < |cols| => (cols[i], if from + i < |params| then params[from + i] else Null))
  }

  // ---------------------------------------------------------------- the statement on a table

  datatype Outcome = Ok | Failed(code: Option<string>)

  /** SQL's `col = ?`: never true of a null. */
  predicate Equal(a: Val, b: Val) {
    a != Null && b != Null && a == b
  }

  predicate Matches(row: Row, wheres: Record<Val>) {
    forall i :: 0 <= i < |wheres| ==> wheres[i].0 in row && Equal(row[wheres[i].0], wheres[i].1)
  }

  function Hits(t: Table, wheres: Record<Val>): set<Row> {
    set row | row in t && Matches(row, wheres)
  }

  /** Assignments to columns the row has. */
  function Assigned(row: Row, sets: Record<Val>): Row {
    if sets == [] then row
    else
      var (col, v) := sets[|sets| - 1];
      var before := Assigned(row, sets[..|sets| - 1]);
      if col in row then before[col := v] else before
  }

  function Blank(cols: set<Col>): Row {
    map c | c in cols :: Null
  }

  predicate UniquePk(t: Table, pk: Col) {
    && (forall row :: row in t ==> pk in row && row[pk] != Null)
    && (forall a, b :: a in t && b in t && a[pk] == b[pk] ==> a == b)
  }

  function Images(hits: set<Row>, sets: Record<Val>): set<Row> {
    set row | row in hits :: Assigned(row, sets)
  }

  /** One statement on a table: the table after, and the number of rows it changed; or no change and a
      constraint error. */
  function DeleteFrom(t: Table, wheres: Record<Val>): (Table, Option<nat>) {
    (t - Hits(t, wheres), Some(|Hits(t, wheres)|))
  }

  function Replaced(pk: Col, t: Table, hits: set<Row>, made: set<Row>): (Table, Option<nat>) {
    if |made| == |hits| && (t - hits) * made == {} && UniquePk(t - hits + made, pk) then (t - hits + made, Some(|hits|))
    else (t, None)
  }

  function UpdateIn(pk: Col, t: Table, sets: Record<Val>, wheres: Record<Val>): (Table, Option<nat>) {
    Replaced(pk, t, Hits(t, wheres), Images(Hits(t, wheres), sets))
  }

  function InsertInto(cols: set<Col>, pk: Col, t: Table, values: Record<Val>): (Table, Option<nat>) {
    var row := Assigned(Blank(cols), values);
    if row !in t && UniquePk(t + {row}, pk) then (t + {row}, Some(1)) else (t, None)
  }

  function Statement(cols: set<Col>, pk: Col, t: Table, verb: Verb, first: Record<Val>, wheres: Record<Val>): (Table, Option<nat>) {
    match verb
    case Delete => DeleteFrom(t, wheres)
    case Update => UpdateIn(pk, t, first, wheres)
    case Insert => InsertInto(cols, pk, t, first)
  }

  /** The statement runs first; then its row count is held against exactly one. */
  function Executed(cols: set<Col>, pk: Col, t: Table, r: Receipt, step: Step): (Table, Outcome) {
    var sets, wheres, values := ResolveAll(r, step.sets), ResolveAll(r, step.wheres), ResolveAll(r, step.values);
    if !IsIdent(r.table) || (step.verb != Insert && (wheres == [] || !AllIdents(wheres)))
       || (step.verb == Update && (sets == [] || !AllIdents(sets))) || (step.verb == Insert && (values == [] || !AllIdents(values)))
    then (t, Failed(Some("VR3009")))
    else match Statement(cols, pk, t, step.verb, if step.verb == Insert then values else sets, wheres)
      case (_, None) => (t, Failed(None))
      case (t', Some(n)) =>
        (t', if n == 1 then Ok else if n == 0 then Failed(Some("VR5006")) else Failed(Some("VR5001")))
  }

  /** The database handle: one table, changed in place. */
  class Db {
    const cols: set<Col>
    const pk: Col
    var rows: Table

    constructor (cols: set<Col>, pk: Col, rows: Table)
      ensures this.cols == cols && this.pk == pk && this.rows == rows
    {
      this.cols, this.pk, this.rows := cols, pk, rows;
    }

    /** `executeSql`. */
    method ExecuteSql(r: Receipt, step: Step) returns (outcome: Outcome)
      requires (step.verb == Delete ==> step.sets == []) && (step.verb == Insert ==> step.wheres == [])
      modifies this`rows
      ensures (rows, outcome) == Executed(cols, pk, old(rows), r, step)
    {
      hide Statement, IsIdent;
      var sql := AssembleSql(step.verb, r.table, ResolveAll(r, step.sets), ResolveAll(r, step.wheres), ResolveAll(r, step.values));
      if sql == None { return Failed(Some("VR3009")); }
      var q := sql.value;
      var (t, changes) := Statement(cols, pk, rows, q.verb, Bound(q.setCols, q.params, 0), Bound(q.whereCols, q.params, |q.setCols|));
      if changes == None { return Failed(None); }
      rows := t;
      if changes.value < 1 || changes.value > 1 {
        if changes.value == 0 { return Failed(Some("VR5006")); }
        return Failed(Some("VR5001"));
      }
      return Ok;
    }
  }

  function Inverse(cols: set<Col>, pk: Col, t: Table, r: Receipt): (Table, Outcome) {
    Executed(cols, pk, t, r, PlanSpec(r))
  }

  // ---------------------------------------------------------------- what the plans mean

  lemma {:induction false} PutAllGet(base: Record<Ref>, members: Record<Val>, refTo: Col -> Ref)
    requires DistinctNames(base)
    ensures DistinctNames(PutAll(base, members, refTo))
    ensures forall c :: Get(PutAll(base, members, refTo), c) == if Get(members, c).Some? then Some(refTo(c)) else Get(base, c)
  {
    if members != [] {
      var front, last := members[..|members| - 1], members[|members| - 1];
      PutAllGet(base, front, refTo);
      PutDistinct(PutAll(base, front, refTo), last.0, refTo(last.0));
      GetPut(PutAll(base, front, refTo), last.0, refTo(last.0));
      assert members == front + [last];
      forall c ensures Get(members, c).Some? <==> Get(front, c).Some? || c == last.0 { GetSnoc(front, last, c); }
    }
  }

  lemma {:induction false} GetSnoc(front: Record<Val>, last: (Col, Val), c: Col)
    ensures Get(front + [last], c).Some? <==> Get(front, c).Some? || c == last.0
  {
    if front != [] {
      GetSnoc(front[1..], last, c);
      assert (front + [last])[1..] == front[1..] + [last];
    }
  }

  /** WHERE, member by member of the record. */
  lemma MatchesExactly(r: Receipt, refs: Record<Ref>, row: Row)
    requires DistinctNames(refs)
    ensures Matches(row, ResolveAll(r, refs))
            <==> forall c :: Get(refs, c).Some? ==> c in row && Equal(row[c], Resolve(r, Get(refs, c).value))
  {
    hide Resolve, Equal, Get;
    var vals := ResolveAll(r, refs);
    if Matches(row, vals) {
      forall c | Get(refs, c).Some? ensures c in row && Equal(row[c], Resolve(r, Get(refs, c).value)) {
        var i := GetFound(refs, c);
        assert vals[i].0 == c;
      }
    }
    if forall c :: Get(refs, c).Some? ==> c in row && Equal(row[c], Resolve(r, Get(refs, c).value)) {
      forall i | 0 <= i < |vals| ensures vals[i].0 in row && Equal(row[vals[i].0], vals[i].1) {
        GetMember(refs, i);
      }
    }
  }

  lemma {:induction false} AssignedKeys(row: Row, sets: Record<Val>)
    ensures Assigned(row, sets).Keys == row.Keys
  {
    if sets != [] { AssignedKeys(row, sets[..|sets| - 1]); }
  }

  /** SET, column by column. */
  lemma {:induction false} AssignedAt(row: Row, sets: Record<Val>, c: Col)
    requires DistinctNames(sets) && c in row
    ensures c in Assigned(row, sets)
    ensures Assigned(row, sets)[c] == if Get(sets, c).Some? then Get(sets, c).value else row[c]
  {
    AssignedKeys(row, sets);
    if sets != [] {
      var front, last := sets[..|sets| - 1], sets[|sets| - 1];
      AssignedKeys(row, front);
      AssignedAt(row, front, c);
      GetLast(front, last, c);
      assert sets == front + [last];
    }
  }

  lemma {:induction false} GetLast(front: Record<Val>, last: (Col, Val), c: Col)
    requires DistinctNames(front + [last])
    ensures Get(front + [last], c) == if c == last.0 then Some(last.1) else Get(front, c)
  {
    var all := front + [last];
    if front != [] {
      assert all[1..] == front[1..] + [last];
      assert all[0].0 != all[|all| - 1].0;
      GetLast(front[1..], last, c);
    }
  }

  lemma {:induction false} GetResolved(r: Receipt, refs: Record<Ref>, c: Col)
    ensures Get(ResolveAll(r, refs), c) == if Get(refs, c).Some? then Some(Resolve(r, Get(refs, c).value)) else None
  {
    hide Resolve;
    if refs != [] {
      assert ResolveAll(r, refs)[1..] == ResolveAll(r, refs[1..]);
      GetResolved(r, refs[1..], c);
    }
  }

  /** The record lists every column of the row with its value. */
  ghost predicate Describes(record: Record<Val>, row: Row) {
    DistinctNames(record) && forall c :: Get(record, c) == if c in row then Some(row[c]) else None
  }

  predicate NullFree(row: Row) {
    forall c :: c in row ==> row[c] != Null
  }

  /** A table of these columns with a unique primary key. */
  ghost predicate Shaped(cols: set<Col>, pk: Col, t: Table) {
    UniquePk(t, pk) && forall row :: row in t ==> row.Keys == cols
  }

  ghost predicate Named(cols: set<Col>, pk: Col, r: Receipt) {
    pk in cols && r.pkCol == pk && IsIdent(r.table) && forall c :: c in cols ==> IsIdent(c)
  }

  ghost predicate KeyOf(cols: set<Col>, pk: Col, r: Receipt, row: Row) {
    && row.Keys == cols && pk in row && row[pk] != Null
    && row[pk] == if "pk" in r.bindings then r.bindings["pk"] else if "id" in r.bindings then r.bindings["id"] else r.resultId
  }

  lemma IdentsOf(r: Receipt, refs: Record<Ref>, cols: set<Col>)
    requires DistinctNames(refs) && forall c :: Get(refs, c).Some? ==> c in cols
    requires forall c :: c in cols ==> IsIdent(c)
    ensures AllIdents(ResolveAll(r, refs))
  {
    forall i | 0 <= i < |refs| ensures IsIdent(refs[i].0) {
      GetMember(refs, i);
    }
  }

  /** The references to a full row resolve to that row. */
  lemma RowRefs(r: Receipt, members: Record<Val>, row: Row, base: Record<Ref>, refTo: Col -> Ref)
    requires Describes(members, row) && DistinctNames(base) && row.Keys != {}
    requires forall c :: Get(base, c).Some? ==> c in row
    requires forall c :: c in row ==> Resolve(r, refTo(c)) == row[c]
    ensures var refs := PutAll(base, members, refTo);
            && DistinctNames(refs) && refs != []
            && forall c :: Get(refs, c) == if c in row then Some(refTo(c)) else None
  {
    PutAllGet(base, members, refTo);
    var c :| c in row;
    assert Get(PutAll(base, members, refTo), c).Some?;
  }

  /** Undoing an UPDATE, whatever happened to the table since: if the row is still what the update left, and
      has no null, the very row before the update is back; otherwise nothing changes and the step fails
      VR5006. */
  lemma UpdateInverse(cols: set<Col>, pk: Col, t: Table, r: Receipt, pre: Row, post: Row)
    requires Shaped(cols, pk, t) && Named(cols, pk, r) && r.verb == Update
    requires Describes(r.pre, pre) && Describes(r.post, post) && KeyOf(cols, pk, r, pre) && KeyOf(cols, pk, r, post)
    ensures Inverse(cols, pk, t, r) == if post in t && NullFree(post) then (t - {post} + {pre}, Ok)
                                       else (t, Failed(Some("VR5006")))
    ensures Shaped(cols, pk, Inverse(cols, pk, t, r).0)
  {
    var step := PlanSpec(r);
    UpdateRefs(cols, pk, r, pre, post);
    hide PlanSpec, PutAll, IsIdent, UniquePk;
    var sets, wheres := ResolveAll(r, step.sets), ResolveAll(r, step.wheres);
    IdentsOf(r, step.sets, cols);
    IdentsOf(r, step.wheres, cols);
    UpdateHits(cols, pk, t, r, post);
    UpdateMakes(cols, pk, r, pre, post);
    UpdateTable(cols, pk, t, pre, post, sets, wheres);
  }

  /** The plan of an UPDATE names each column once, in SET by the row before and in WHERE by the row after. */
  lemma UpdateRefs(cols: set<Col>, pk: Col, r: Receipt, pre: Row, post: Row)
    requires Named(cols, pk, r) && r.verb == Update
    requires Describes(r.pre, pre) && Describes(r.post, post) && KeyOf(cols, pk, r, pre) && KeyOf(cols, pk, r, post)
    ensures var step := PlanSpec(r);
            && DistinctNames(step.sets) && DistinctNames(step.wheres) && step.sets != [] && step.wheres != []
            && (forall c :: Get(step.sets, c) == if c in cols then Some(Pre(c)) else None)
            && (forall c :: Get(step.wheres, c) == if c in cols then Some(Post(c)) else None)
  {
    RowRefs(r, r.pre, pre, [], PreRef);
    RowRefs(r, r.post, post, [(r.pkCol, PkRef(r))], PostRef);
  }

  lemma UpdateHits(cols: set<Col>, pk: Col, t: Table, r: Receipt, post: Row)
    requires Shaped(cols, pk, t) && Describes(r.post, post) && post.Keys == cols
    requires DistinctNames(PlanSpec(r).wheres)
    requires forall c :: Get(PlanSpec(r).wheres, c) == if c in cols then Some(Post(c)) else None
    ensures Hits(t, ResolveAll(r, PlanSpec(r).wheres)) == if post in t && NullFree(post) then {post} else {}
  {
    hide PlanSpec;
    forall row | row in t
      ensures Matches(row, ResolveAll(r, PlanSpec(r).wheres)) <==> row == post && NullFree(post)
    {
      MatchesExactly(r, PlanSpec(r).wheres, row);
      if forall c :: c in cols ==> Equal(row[c], post[c]) {
        assert row == post;
      }
    }
  }

  lemma UpdateMakes(cols: set<Col>, pk: Col, r: Receipt, pre: Row, post: Row)
    requires Describes(r.pre, pre) && pre.Keys == post.Keys == cols
    requires DistinctNames(PlanSpec(r).sets)
    requires forall c :: Get(PlanSpec(r).sets, c) == if c in cols then Some(Pre(c)) else None
    ensures Assigned(post, ResolveAll(r, PlanSpec(r).sets)) == pre
  {
    hide PlanSpec;
    var sets := ResolveAll(r, PlanSpec(r).sets);
    AssignedKeys(post, sets);
    forall c | c in cols ensures Assigned(post, sets)[c] == pre[c] {
      AssignedAt(post, sets, c);
      GetResolved(r, PlanSpec(r).sets, c);
    }
  }

  lemma UpdateTable(cols: set<Col>, pk: Col, t: Table, pre: Row, post: Row, sets: Record<Val>, wheres: Record<Val>)
    requires Shaped(cols, pk, t) && pre.Keys == post.Keys == cols && pk in cols && pre[pk] == post[pk] != Null
    requires Hits(t, wheres) == (if post in t && NullFree(post) then {post} else {}) && Assigned(post, sets) == pre
    ensures UpdateIn(pk, t, sets, wheres)
            == if post in t && NullFree(post) then (t - {post} + {pre}, Some(1)) else (t, Some(0))
    ensures post in t ==> Shaped(cols, pk, t - {post} + {pre})
  {
    if post in t { SwapRow(cols, pk, t, pre, post); }
    assert UniquePk(t, pk);
    hide Assigned, Hits, NullFree, Shaped, UniquePk, Replaced;
    if post in t && NullFree(post) {
      assert Images({post}, sets) == {pre};
      ReplaceOne(pk, t, post, pre);
    } else {
      assert Images({}, sets) == {};
      ReplaceNone(pk, t);
    }
  }

  lemma ReplaceOne(pk: Col, t: Table, old': Row, new': Row)
    requires (t - {old'}) * {new'} == {} && UniquePk(t - {old'} + {new'}, pk)
    ensures Replaced(pk, t, {old'}, {new'}) == (t - {old'} + {new'}, Some(1))
  {
    hide UniquePk;
  }

  lemma ReplaceNone(pk: Col, t: Table)
    requires UniquePk(t, pk)
    ensures Replaced(pk, t, {}, {}) == (t, Some(0))
  {
    hide UniquePk;
    assert t - {} + {} == t;
  }

  lemma SwapRow(cols: set<Col>, pk: Col, t: Table, pre: Row, post: Row)
    requires Shaped(cols, pk, t) && pre.Keys == post.Keys == cols && pk in cols && pre[pk] == post[pk] != Null && post in t
    ensures Shaped(cols, pk, t - {post} + {pre}) && UniquePk(t - {post} + {pre}, pk) && (t - {post}) * {pre} == {}
  {
  }

  /** The rows of the table with this key: none, or one. */
  function WithKey(t: Table, pk: Col, key: Val): set<Row> {
    set row | row in t && pk in row && row[pk] == key
  }

  lemma AtMostOne(t: Table, pk: Col, key: Val)
    requires UniquePk(t, pk)
    ensures WithKey(t, pk, key) == {} || exists row :: row in t && row[pk] == key && WithKey(t, pk, key) == {row}
  {
    if WithKey(t, pk, key) != {} {
      var row :| row in WithKey(t, pk, key);
      assert WithKey(t, pk, key) == {row};
    }
  }

  /** Undoing an INSERT: the row under that key goes, whatever it holds by now; if there is none, VR5006. */
  lemma InsertInverse(cols: set<Col>, pk: Col, t: Table, r: Receipt, post: Row)
    requires Shaped(cols, pk, t) && Named(cols, pk, r) && r.verb == Insert && KeyOf(cols, pk, r, post)
    ensures var gone := WithKey(t, pk, post[pk]);
            Inverse(cols, pk, t, r) == (t - gone, if gone == {} then Failed(Some("VR5006")) else Ok)
    ensures Shaped(cols, pk, Inverse(cols, pk, t, r).0)
  {
    var wheres := ResolveAll(r, PlanSpec(r).wheres);
    assert wheres == [(pk, post[pk])];
    forall row | row in t ensures Matches(row, wheres) <==> pk in row && row[pk] == post[pk] {
      assert wheres[0] == (pk, post[pk]);
    }
    assert Hits(t, wheres) == WithKey(t, pk, post[pk]);
    AtMostOne(t, pk, post[pk]);
    hide Hits, Shaped, UniquePk;
    assert Shaped(cols, pk, t - WithKey(t, pk, post[pk])) by { FewerRows(cols, pk, t, WithKey(t, pk, post[pk])); }
  }

  lemma FewerRows(cols: set<Col>, pk: Col, t: Table, gone: set<Row>)
    requires Shaped(cols, pk, t)
    ensures Shaped(cols, pk, t - gone)
  {
  }

  /** Undoing a DELETE: the very row is back if its key is free; otherwise nothing changes. */
  lemma DeleteInverse(cols: set<Col>, pk: Col, t: Table, r: Receipt, pre: Row)
    requires Shaped(cols, pk, t) && Named(cols, pk, r) && r.verb == Delete
    requires Describes(r.pre, pre) && KeyOf(cols, pk, r, pre)
    ensures Inverse(cols, pk, t, r) == if WithKey(t, pk, pre[pk]) == {} then (t + {pre}, Ok) else (t, Failed(None))
    ensures Shaped(cols, pk, Inverse(cols, pk, t, r).0)
  {
    RowRefs(r, r.pre, pre, [], PreRef);
    var refs := PlanSpec(r).values;
    assert refs == PutAll([], r.pre, PreRef);
    IdentsOf(r, refs, cols);
    hide PutAll, PlanSpec, IsIdent;
    InsertMakes(cols, r, refs, pre);
    InsertTable(cols, pk, t, pre, ResolveAll(r, refs));
  }

  lemma InsertMakes(cols: set<Col>, r: Receipt, refs: Record<Ref>, pre: Row)
    requires DistinctNames(refs) && pre.Keys == cols && Describes(r.pre, pre)
    requires forall c :: Get(refs, c) == if c in cols then Some(Pre(c)) else None
    ensures Assigned(Blank(cols), ResolveAll(r, refs)) == pre
  {
    var values := ResolveAll(r, refs);
    AssignedKeys(Blank(cols), values);
    forall c | c in cols ensures Assigned(Blank(cols), values)[c] == pre[c] {
      AssignedAt(Blank(cols), values, c);
      GetResolved(r, refs, c);
    }
  }

  lemma InsertTable(cols: set<Col>, pk: Col, t: Table, pre: Row, values: Record<Val>)
    requires Shaped(cols, pk, t) && pre.Keys == cols && pk in cols && pre[pk] != Null
    requires Assigned(Blank(cols), values) == pre
    ensures InsertInto(cols, pk, t, values) == if WithKey(t, pk, pre[pk]) == {} then (t + {pre}, Some(1)) else (t, None)
    ensures WithKey(t, pk, pre[pk]) == {} ==> Shaped(cols, pk, t + {pre})
  {
    hide Assigned, Blank;
    if WithKey(t, pk, pre[pk]) == {} {
      assert forall row :: row in t ==> row !in WithKey(t, pk, pre[pk]);
    } else {
      var row :| row in WithKey(t, pk, pre[pk]);
      assert row in t && row in t + {pre} && pre in t + {pre};
    }
  }

  // ---------------------------------------------------------------- many changes

  /** A change of one row, as the receipt of its statement records it. */
  datatype Change = Added(post: Row) | Changed(pre: Row, post: Row) | Removed(pre: Row)

  ghost predicate Fits(cols: set<Col>, pk: Col, t: Table, ch: Change) {
    match ch
    case Added(post) => post.Keys == cols && pk in cols && post[pk] != Null && WithKey(t, pk, post[pk]) == {}
    case Changed(pre, post) => pre in t && post.Keys == cols && pk in cols && pk in pre && post[pk] == pre[pk]
    case Removed(pre) => pre in t && pk in cols
  }

  function Applied(t: Table, ch: Change): Table {
    match ch
    case Added(post) => t + {post}
    case Changed(pre, post) => t - {pre} + {post}
    case Removed(pre) => t - {pre}
  }

  ghost predicate Records(cols: set<Col>, pk: Col, ch: Change, r: Receipt) {
    Named(cols, pk, r)
    && match ch
       case Added(post) => r.verb == Insert && KeyOf(cols, pk, r, post)
       case Changed(pre, post) =>
         r.verb == Update && Describes(r.pre, pre) && Describes(r.post, post) && KeyOf(cols, pk, r, pre) && KeyOf(cols, pk, r, post)
       case Removed(pre) => r.verb == Delete && Describes(r.pre, pre) && KeyOf(cols, pk, r, pre)
  }

  /** An UPDATE that left a null in the row cannot be undone. */
  predicate Undoable(ch: Change) {
    ch.Changed? ==> NullFree(ch.post)
  }

  /** Right after the change its inverse restores the table, exactly when the change left no null behind;
      otherwise it leaves the table alone. */
  lemma OneBack(cols: set<Col>, pk: Col, t: Table, ch: Change, r: Receipt)
    requires Shaped(cols, pk, t) && Fits(cols, pk, t, ch) && Records(cols, pk, ch, r)
    ensures Shaped(cols, pk, Applied(t, ch))
    ensures Inverse(cols, pk, Applied(t, ch), r) == if Undoable(ch) then (t, Ok) else (Applied(t, ch), Failed(Some("VR5006")))
  {
    hide Inverse, Describes, NullFree;
    match ch
    case Added(post) =>
      AddRow(cols, pk, t, post);
      InsertInverse(cols, pk, t + {post}, r, post);
    case Changed(pre, post) =>
      SwapRow(cols, pk, t, post, pre);
      UpdateInverse(cols, pk, t - {pre} + {post}, r, pre, post);
      assert t - {pre} + {post} - {post} + {pre} == t;
    case Removed(pre) =>
      FewerRows(cols, pk, t, {pre});
      DeleteInverse(cols, pk, t - {pre}, r, pre);
      assert t - {pre} + {pre} == t;
      assert WithKey(t - {pre}, pk, pre[pk]) == {};
  }

  lemma AddRow(cols: set<Col>, pk: Col, t: Table, post: Row)
    requires Shaped(cols, pk, t) && Fits(cols, pk, t, Added(post))
    ensures Shaped(cols, pk, t + {post}) && WithKey(t + {post}, pk, post[pk]) == {post} && t + {post} - {post} == t
  {
    assert forall row :: row in t ==> row !in WithKey(t, pk, post[pk]);
  }

  /** The table after all the changes, in order. */
  function AppliedAll(t: Table, changes: seq<Change>): Table {
    if changes == [] then t else Applied(AppliedAll(t, changes[..|changes| - 1]), changes[|changes| - 1])
  }

  ghost predicate FitAll(cols: set<Col>, pk: Col, t: Table, changes: seq<Change>) {
    changes == [] ||
    (FitAll(cols, pk, t, changes[..|changes| - 1])
     && Fits(cols, pk, AppliedAll(t, changes[..|changes| - 1]), changes[|changes| - 1]))
  }

  /** The inverses, last change first, until one fails. */
  function UndoneAll(cols: set<Col>, pk: Col, t: Table, receipts: seq<Receipt>): (Table, bool)
    decreases |receipts|
  {
    if receipts == [] then (t, true)
    else
      var (t', outcome) := Inverse(cols, pk, t, receipts[|receipts| - 1]);
      if outcome == Ok then UndoneAll(cols, pk, t', receipts[..|receipts| - 1]) else (t', false)
  }

  lemma {:induction false} ShapedAll(cols: set<Col>, pk: Col, t: Table, changes: seq<Change>, receipts: seq<Receipt>)
    requires Shaped(cols, pk, t) && FitAll(cols, pk, t, changes) && |receipts| == |changes|
    requires forall i :: 0 <= i < |changes| ==> Records(cols, pk, changes[i], receipts[i])
    ensures Shaped(cols, pk, AppliedAll(t, changes))
  {
    hide Shaped, Records, Fits;
    if changes != [] {
      var last := |changes| - 1;
      ShapedAll(cols, pk, t, changes[..last], receipts[..last]);
      OneBack(cols, pk, AppliedAll(t, changes[..last]), changes[last], receipts[last]);
    }
  }

  /** Any number of single-row changes is undone by the inverses in reverse order, exactly when no UPDATE
      among them left a null in its row. */
  lemma {:induction false} AllBack(cols: set<Col>, pk: Col, t: Table, changes: seq<Change>, receipts: seq<Receipt>)
    requires Shaped(cols, pk, t) && FitAll(cols, pk, t, changes) && |receipts| == |changes|
    requires forall i :: 0 <= i < |changes| ==> Records(cols, pk, changes[i], receipts[i])
    ensures (forall i :: 0 <= i < |changes| ==> Undoable(changes[i]))
            <==> UndoneAll(cols, pk, AppliedAll(t, changes), receipts).1
    ensures UndoneAll(cols, pk, AppliedAll(t, changes), receipts).1
            ==> UndoneAll(cols, pk, AppliedAll(t, changes), receipts).0 == t
  {
    hide Shaped, Records, Fits, Inverse, Undoable;
    if changes != [] {
      var last := |changes| - 1;
      ShapedAll(cols, pk, t, changes[..last], receipts[..last]);
      OneBack(cols, pk, AppliedAll(t, changes[..last]), changes[last], receipts[last]);
      AllBack(cols, pk, t, changes[..last], receipts[..last]);
    }
  }

  /** Whatever the table has become, an inverse changes at most rows under its one key. */
  lemma OneKeyOnly(cols: set<Col>, pk: Col, t: Table, ch: Change, r: Receipt, row: Row)
    requires Shaped(cols, pk, t) && Records(cols, pk, ch, r) && pk in row
    requires row[pk] != (if ch.Removed? then ch.pre else ch.post)[pk]
    ensures row in Inverse(cols, pk, t, r).0 <==> row in t
  {
    hide Inverse, Describes, NullFree;
    match ch
    case Added(post) => InsertInverse(cols, pk, t, r, post);
    case Changed(pre, post) => UpdateInverse(cols, pk, t, r, pre, post);
    case Removed(pre) => DeleteInverse(cols, pk, t, r, pre);
  }
}
