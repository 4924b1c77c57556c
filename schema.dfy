/**
 * The migration planner of kata/schema.py: the SQL text builders and the
 * plan `apply` makes for one table from its declared columns and indexes
 * and what the database reports. Reading the schema files, querying the
 * database and executing statements are left to the caller; here a plan is
 * the list of statements `_handle` would receive, empty ones dropped.
 */
module Schema {
  import opened Wrappers
  import opened Strings
  import opened Seqs

  /** A declared column: `type`, `length`, `default`, `nullable` and `primary_key` from the schema file. */
  datatype ColumnSpec = ColumnSpec(dataType: string, length: Option<nat>, default: Option<string>, nullable: Option<string>, primaryKey: bool)

  /** A row of `information_schema.columns`: name, type, maximum length, default and `is_nullable`. */
  datatype ExistingColumn = ExistingColumn(name: string, dataType: string, length: Option<nat>, default: Option<string>, nullable: string)

  /** A declared index: its `columns` and `unique` flag. */
  datatype IndexSpec = IndexSpec(columns: seq<string>, unique: bool)

  /** A row of `pg_indexes` for the table: the index name and its definition. */
  datatype ExistingIndex = ExistingIndex(name: string, definition: string)

  /** The items of the `columns` dictionary of one table, in file order. */
  type Declared = seq<(string, ColumnSpec)>

  /** Python truthiness of an optional string. */
  predicate Present(s: Option<string>) {
    s.Some? && s.value != ""
  }

  /** `'%s' % length` */
  function Show(n: Option<nat>): string {
    match n
    case None => "None"
    case Some(k) => NatToString(k)
  }

  /** No two declared columns share a name, as the keys of the `columns` dictionary. */
  predicate DistinctNames(cols: Declared) {
    forall i, j :: 0 <= i < j < |cols| ==> cols[i].0 != cols[j].0
  }

  /** No text occurs twice. */
  ghost predicate DistinctStrings(s: seq<string>) {
    forall i, j :: 0 <= i < j < |s| ==> s[i] != s[j]
  }

  // ---------------------------------------------------------------------------------------------
  // Text lemmas
  // ---------------------------------------------------------------------------------------------

  /** A text occurs in any text that has it in the middle. */
  lemma {:induction false} ContainsMiddle(a: string, b: string, c: string)
    ensures Contains(a + b + c, b)
    decreases |a|
  {
    if a == [] {
      assert (a + b + c)[..|b|] == b;
    } else {
      ContainsMiddle(a[1..], b, c);
      assert (a + b + c)[1..] == a[1..] + b + c;
    }
  }

  /** A text that occurs in the end of a text occurs in the whole text. */
  lemma {:induction false} ContainsAppend(a: string, b: string, sub: string)
    requires Contains(b, sub)
    ensures Contains(a + b, sub)
    decreases |a|
  {
    if a == [] {
      assert a + b == b;
    } else {
      ContainsAppend(a[1..], b, sub);
      assert (a + b)[1..] == a[1..] + b;
    }
  }

  // ---------------------------------------------------------------------------------------------
  // _index_string and _alter_table_string
  // ---------------------------------------------------------------------------------------------

  /** The text `_index_string` writes before the column list. */
  function IndexOpening(table: string, index: string, unique: bool): string {
    (if unique then "CREATE UNIQUE INDEX " else "CREATE INDEX ") + index + " ON " + table + " USING btree ("
  }

  /**
   * `_index_string`: `CREATE [UNIQUE ]INDEX <index> ON <table> USING btree (`, then the columns joined
   * by `, `, then `)`.
   */
  function IndexString(table: string, index: string, columns: seq<string>, unique: bool): (r: string)
    ensures StartsWith(r, "CREATE UNIQUE INDEX ") <==> unique
    ensures StartsWith(r, IndexOpening(table, index, unique))
    ensures EndsWith(r, Join(", ", columns) + ")")
    ensures |r| == |IndexOpening(table, index, unique)| + |Join(", ", columns)| + 1
  {
    var opening := IndexOpening(table, index, unique);
    var closing := Join(", ", columns) + ")";
    var r := opening + closing;
    StartsWithAppend(opening, closing);
    assert r[|r| - |closing|..] == closing;
    UniqueOpening(table, index, unique);
    assert !unique ==> r[7] == opening[7] == 'I';
    r
  }

  /** The opening of a unique index starts with `CREATE UNIQUE INDEX `, and the opening of another with `CREATE I`. */
  lemma UniqueOpening(table: string, index: string, unique: bool)
    ensures unique ==> StartsWith(IndexOpening(table, index, unique), "CREATE UNIQUE INDEX ")
    ensures !unique ==> |IndexOpening(table, index, unique)| > 7 && IndexOpening(table, index, unique)[7] == 'I'
  {
    var kw := if unique then "CREATE UNIQUE INDEX " else "CREATE INDEX ";
    var rest := index + " ON " + table + " USING btree (";
    assert IndexOpening(table, index, unique) == kw + rest;
    StartsWithAppend(kw, rest);
  }

  /** The type text: the type, followed by `(<length>)` exactly for character types. */
  function TypeString(dataType: string, length: Option<nat>): (r: string)
    ensures StartsWith(r, dataType)
    ensures r != dataType <==> Contains(Lower(dataType), "character")
    ensures r != dataType ==> r[|dataType|..] == "(" + Show(length) + ")"
  {
    var r := if Contains(Lower(dataType), "character") then dataType + "(" + Show(length) + ")" else dataType;
    assert r[..|dataType|] == dataType;
    r
  }

  /** The default clause: `DEFAULT <default>` when the default is truthy. */
  function DefaultString(default: Option<string>): string {
    if Present(default) then "DEFAULT " + default.value else ""
  }

  /** The primary key clause. */
  function PrimaryKeyString(primaryKey: bool): string {
    if primaryKey then "PRIMARY KEY" else ""
  }

  /** The `ADD COLUMN` statement with the given clauses. */
  function AddColumn(table: string, column: string, typeString: string, defaultString: string, nullableString: string, primaryKeyString: string): string {
    "ALTER TABLE " + table + " ADD COLUMN " + column + " " + typeString + " " + defaultString + " " + nullableString + " " + primaryKeyString + " ;"
  }

  /** The head shared by the statements that alter an existing column. */
  function AlterColumn(table: string, column: string): string {
    "ALTER TABLE " + table + " ALTER COLUMN " + column
  }

  /** The `SET DEFAULT` statement with the given default text. */
  function SetDefault(table: string, column: string, text: string): string {
    AlterColumn(table, column) + " SET DEFAULT " + text + " ;"
  }

  /** The `TYPE` statement, issued for every type but `bigserial`. */
  function AlterType(table: string, column: string, dataType: string, typeString: string): string {
    if dataType != "bigserial" then AlterColumn(table, column) + " TYPE " + typeString + " ; " else ""
  }

  /**
   * `_alter_table_string` as written: the NOT NULL text is added to `nullable` instead of
   * `nullable_string`, so it never appears, and `SET DEFAULT` is followed by the whole default clause.
   */
  function AlterTableStringAsWritten(table: string, column: string, dataType: string, length: Option<nat>, default: Option<string>, nullable: Option<string>, primaryKey: bool, create: bool): string {
    var typeString := TypeString(dataType, length);
    var defaultString := DefaultString(default);
    if create then AddColumn(table, column, typeString, defaultString, "", PrimaryKeyString(primaryKey))
    else
      AlterType(table, column, dataType, typeString)
      + (if Present(default) then SetDefault(table, column, defaultString) else "")
  }

  /**
   * `_alter_table_string` as evidently intended: `NOT NULL` when `nullable` is `'NO'`, and
   * `SET DEFAULT <default>`. It writes what the source writes wherever neither slip is reached.
   */
  function AlterTableString(table: string, column: string, dataType: string, length: Option<nat>, default: Option<string>, nullable: Option<string>, primaryKey: bool, create: bool): (r: string)
    ensures create && nullable != Some("NO") ==> r == AlterTableStringAsWritten(table, column, dataType, length, default, nullable, primaryKey, create)
    ensures !create ==> (!Present(default) <==>
                         r == AlterTableStringAsWritten(table, column, dataType, length, default, nullable, primaryKey, create))
  {
    var typeString := TypeString(dataType, length);
    if create then
      AddColumn(table, column, typeString, DefaultString(default), if nullable == Some("NO") then "NOT NULL" else "", PrimaryKeyString(primaryKey))
    else
      AlterType(table, column, dataType, typeString)
      + (if Present(default) then SetDefault(table, column, default.value) else "")
  }

  /** As written, `nullable` has no effect on the output: the NOT NULL text never reaches it. */
  lemma NullableIgnoredAsWritten(table: string, column: string, dataType: string, length: Option<nat>, default: Option<string>, primaryKey: bool, create: bool)
    ensures AlterTableStringAsWritten(table, column, dataType, length, default, Some("NO"), primaryKey, create)
         == AlterTableStringAsWritten(table, column, dataType, length, default, None, primaryKey, create)
  {
  }

  /** As written, a column declared `nullable: NO` is added with an empty NOT NULL clause; as intended, with `NOT NULL`. */
  lemma NotNullDroppedAsWritten(table: string, column: string, dataType: string, length: Option<nat>, default: Option<string>, primaryKey: bool)
    ensures AlterTableStringAsWritten(table, column, dataType, length, default, Some("NO"), primaryKey, true)
         == AddColumn(table, column, TypeString(dataType, length), DefaultString(default), "", PrimaryKeyString(primaryKey))
    ensures AlterTableString(table, column, dataType, length, default, Some("NO"), primaryKey, true)
         == AddColumn(table, column, TypeString(dataType, length), DefaultString(default), "NOT NULL", PrimaryKeyString(primaryKey))
  {
  }

  /** As written, every truthy default is set with `SET DEFAULT DEFAULT ...`. */
  lemma DefaultAlwaysDoubledAsWritten(table: string, column: string, dataType: string, length: Option<nat>, default: Option<string>, nullable: Option<string>, primaryKey: bool)
    requires Present(default)
    ensures Contains(AlterTableStringAsWritten(table, column, dataType, length, default, nullable, primaryKey, false), " SET DEFAULT DEFAULT ")
  {
    var v := default.value;
    var clause := SetDefault(table, column, "DEFAULT " + v);
    assert clause == AlterColumn(table, column) + " SET DEFAULT DEFAULT " + (v + " ;");
    ContainsMiddle(AlterColumn(table, column), " SET DEFAULT DEFAULT ", v + " ;");
    ContainsAppend(AlterType(table, column, dataType, TypeString(dataType, length)), clause, " SET DEFAULT DEFAULT ");
  }

  /** Intended: a new column declared `nullable: NO` is created `NOT NULL`. */
  lemma NotNullEmitted(table: string, column: string, dataType: string, length: Option<nat>, default: Option<string>, primaryKey: bool)
    ensures Contains(AlterTableString(table, column, dataType, length, default, Some("NO"), primaryKey, true), "NOT NULL")
  {
    var typeString := TypeString(dataType, length);
    var head := "ALTER TABLE " + table + " ADD COLUMN " + column + " " + typeString + " " + DefaultString(default) + " ";
    ContainsMiddle(head, "NOT NULL", " " + PrimaryKeyString(primaryKey) + " ;");
    assert AlterTableString(table, column, dataType, length, default, Some("NO"), primaryKey, true)
        == head + "NOT NULL" + (" " + PrimaryKeyString(primaryKey) + " ;");
  }

  /** Intended: a truthy default is set with `SET DEFAULT <default> ;` at the end of the text. */
  lemma DefaultSetOnce(table: string, column: string, dataType: string, length: Option<nat>, default: Option<string>, nullable: Option<string>, primaryKey: bool)
    requires Present(default)
    ensures EndsWith(AlterTableString(table, column, dataType, length, default, nullable, primaryKey, false), " SET DEFAULT " + default.value + " ;")
  {
    var tail := " SET DEFAULT " + default.value + " ;";
    var clause := SetDefault(table, column, default.value);
    assert clause[|clause| - |tail|..] == tail;
    EndsWithAppend(AlterType(table, column, dataType, TypeString(dataType, length)), clause, tail);
  }

  /** Which `_alter_table_string` a plan calls: the one of lines 11-44 as it stands, or the corrected one. */
  datatype Builder = AsWritten | Corrected

  /** `_alter_table_string` as the chosen builder writes it. */
  function Build(b: Builder, table: string, column: string, dataType: string, length: Option<nat>, default: Option<string>, nullable: Option<string>, primaryKey: bool, create: bool): string {
    match b
    case AsWritten => AlterTableStringAsWritten(table, column, dataType, length, default, nullable, primaryKey, create)
    case Corrected => AlterTableString(table, column, dataType, length, default, nullable, primaryKey, create)
  }

  /** Creating a column yields one `ADD COLUMN` statement for that column, with either builder. */
  lemma AddColumnShape(b: Builder, table: string, column: string, dataType: string, length: Option<nat>, default: Option<string>, nullable: Option<string>, primaryKey: bool)
    ensures var r := Build(b, table, column, dataType, length, default, nullable, primaryKey, true);
      StartsWith(r, "ALTER TABLE " + table + " ADD COLUMN " + column + " ") && EndsWith(r, " ;")
  {
    var head := "ALTER TABLE " + table + " ADD COLUMN " + column + " ";
    var r := Build(b, table, column, dataType, length, default, nullable, primaryKey, true);
    assert r[..|head|] == head;
    assert r[|r| - 2..] == " ;";
  }

  /**
   * Altering a column starts with the TYPE statement exactly for types other than `bigserial`, and
   * yields nothing exactly when the type is `bigserial` and the default is falsy, with either builder.
   * A falsy default adds no `SET DEFAULT` statement: the text is then the TYPE statement alone.
   */
  lemma AlterColumnShape(b: Builder, table: string, column: string, dataType: string, length: Option<nat>, default: Option<string>, nullable: Option<string>, primaryKey: bool)
    ensures var r := Build(b, table, column, dataType, length, default, nullable, primaryKey, false);
      && (StartsWith(r, AlterColumn(table, column) + " TYPE ") <==> dataType != "bigserial")
      && (r == "" <==> dataType == "bigserial" && !Present(default))
      && (!Present(default) ==> r == AlterType(table, column, dataType, TypeString(dataType, length)))
  {
    var text := if b == AsWritten then DefaultString(default) else if Present(default) then default.value else "";
    var tail := if Present(default) then SetDefault(table, column, text) else "";
    AlterTextShape(table, column, dataType, TypeString(dataType, length), tail);
  }

  /** The altering text for any type text and any (possibly empty) `SET DEFAULT` statement. */
  lemma AlterTextShape(table: string, column: string, dataType: string, typeString: string, tail: string)
    requires tail == "" || StartsWith(tail, AlterColumn(table, column) + " SET ")
    ensures var r := AlterType(table, column, dataType, typeString) + tail;
      && (StartsWith(r, AlterColumn(table, column) + " TYPE ") <==> dataType != "bigserial")
      && (r == "" <==> dataType == "bigserial" && tail == "")
  {
    var h := AlterColumn(table, column);
    var t := h + " TYPE ";
    var r := AlterType(table, column, dataType, typeString) + tail;
    if dataType != "bigserial" {
      assert r == t + (typeString + " ; " + tail);
      assert r[..|t|] == t;
    } else if tail != "" {
      assert r == tail;
      assert tail[..|h| + 5] == h + " SET ";
      assert tail[|h| + 1] == 'S' && t[|h| + 1] == 'T';
    }
  }

  // ---------------------------------------------------------------------------------------------
  // Column order
  // ---------------------------------------------------------------------------------------------

  /** The two columns the planner moves: `id`, and a column whose name ends in `dt`. */
  datatype Role = Id | Dt

  predicate HasRole(name: string, role: Role) {
    match role
    case Id => name == "id"
    case Dt => EndsWith(name, "dt")
  }

  /** The index of the first column with the role, if any. */
  function FirstWith(cols: Declared, role: Role): (r: Option<nat>)
    ensures r.Some? ==> r.value < |cols| && HasRole(cols[r.value].0, role)
    ensures r.Some? ==> forall j :: 0 <= j < r.value ==> !HasRole(cols[j].0, role)
    ensures r.None? ==> forall j :: 0 <= j < |cols| ==> !HasRole(cols[j].0, role)
    decreases |cols|
  {
    if cols == [] then None
    else if HasRole(cols[0].0, role) then Some(0)
    else match FirstWith(cols[1..], role)
      case None => None
      case Some(k) => Some(k + 1)
  }

  /** The first column with a role is the one that has it with none before it. */
  lemma FirstWithUnique(cols: Declared, role: Role, k: nat)
    requires k < |cols| && HasRole(cols[k].0, role)
    requires forall j :: 0 <= j < k ==> !HasRole(cols[j].0, role)
    ensures FirstWith(cols, role) == Some(k)
  {
  }

  /** `lst.insert(0, lst.pop(i))` */
  function ToFront<T>(s: seq<T>, i: nat): (r: seq<T>)
    requires i < |s|
    ensures |r| == |s| && multiset(r) == multiset(s)
    ensures r[0] == s[i]
    ensures forall j :: 1 <= j <= i ==> r[j] == s[j - 1]
    ensures forall j :: i < j < |s| ==> r[j] == s[j]
  {
    assert s == s[..i] + [s[i]] + s[i + 1..];
    [s[i]] + s[..i] + s[i + 1..]
  }

  /** `lst.insert(1, lst.pop(k))`; on a list of one element the insertion appends. */
  function ToSecond<T>(s: seq<T>, k: nat): (r: seq<T>)
    requires k < |s|
    ensures |r| == |s| && multiset(r) == multiset(s)
    ensures |s| >= 2 ==> r[1] == s[k]
    ensures k >= 1 ==> r[0] == s[0]
  {
    var rest := s[..k] + s[k + 1..];
    assert s == s[..k] + [s[k]] + s[k + 1..];
    assert multiset(s) == multiset(s[..k]) + multiset([s[k]]) + multiset(s[k + 1..]);
    if rest == [] then [s[k]]
    else
      assert rest == [rest[0]] + rest[1..];
      assert k >= 1 ==> rest[0] == s[0];
      var r := [rest[0]] + [s[k]] + rest[1..];
      assert multiset(r) == multiset([rest[0]]) + multiset([s[k]]) + multiset(rest[1..]);
      assert multiset(rest) == multiset([rest[0]]) + multiset(rest[1..]);
      assert multiset(rest) == multiset(s[..k]) + multiset(s[k + 1..]);
      assert multiset(r) == multiset(rest) + multiset([s[k]]);
      r
  }

  /** The columns with the first `id` moved to the front (lines 123-127). */
  function IdFirst(cols: Declared): Declared {
    match FirstWith(cols, Id)
    case Some(i) => ToFront(cols, i)
    case None => cols
  }

  /** The columns with the first `*dt` column moved to position 1 (lines 130-134). */
  function DtSecond(cols: Declared): Declared {
    match FirstWith(cols, Dt)
    case Some(k) => ToSecond(cols, k)
    case None => cols
  }

  /** The order in which the planner walks the declared columns. */
  function Reordered(cols: Declared): Declared {
    DtSecond(IdFirst(cols))
  }

  /** Moving `id` to the front keeps the first `*dt` column the first one, one place later if it was before `id`. */
  lemma FirstDtAfterIdFirst(cols: Declared, d: nat)
    requires FirstWith(cols, Dt) == Some(d)
    ensures FirstWith(IdFirst(cols), Dt).Some?
    ensures IdFirst(cols)[FirstWith(IdFirst(cols), Dt).value] == cols[d]
    ensures FirstWith(cols, Id).Some? ==> FirstWith(IdFirst(cols), Dt).value >= 1
  {
    match FirstWith(cols, Id) {
      case None =>
      case Some(i) =>
        assert cols[i].0 == "id";
        assert "id"[1] != "dt"[1];
        assert !HasRole(cols[i].0, Dt);
        ToFrontKeepsFirst(cols, i, Dt, d);
        assert IdFirst(cols) == ToFront(cols, i);
    }
  }

  /** Moving a column without the role to the front shifts the first column with the role by at most one place. */
  lemma ToFrontKeepsFirst(cols: Declared, i: nat, role: Role, d: nat)
    requires i < |cols| && !HasRole(cols[i].0, role)
    requires FirstWith(cols, role) == Some(d)
    ensures FirstWith(ToFront(cols, i), role) == Some(if d < i then d + 1 else d)
    ensures ToFront(cols, i)[if d < i then d + 1 else d] == cols[d]
  {
    var a := ToFront(cols, i);
    var k := if d < i then d + 1 else d;
    forall j | 0 <= j < k
      ensures !HasRole(a[j].0, role)
    {
      if j == 0 {
        assert a[0] == cols[i];
      } else if j <= i {
        assert a[j] == cols[j - 1];
      } else {
        assert a[j] == cols[j];
      }
    }
    FirstWithUnique(a, role, k);
  }

  /** Reordering permutes the columns, so it keeps their names. */
  lemma ReorderedNames(cols: Declared)
    ensures multiset(Reordered(cols)) == multiset(cols) && |Reordered(cols)| == |cols|
    ensures Names(Reordered(cols)) == Names(cols)
  {
    var a := IdFirst(cols);
    match FirstWith(cols, Id) {
      case None =>
      case Some(i) => assert a == ToFront(cols, i);
    }
    assert multiset(a) == multiset(cols) && |a| == |cols|;
    var r := DtSecond(a);
    match FirstWith(a, Dt) {
      case None =>
      case Some(k) => assert r == ToSecond(a, k);
    }
    assert multiset(r) == multiset(a) && |r| == |a|;
    SameNames(r, cols);
  }

  /** Two arrangements of the same columns have the same names. */
  lemma SameNames(a: Declared, b: Declared)
    requires multiset(a) == multiset(b)
    ensures Names(a) == Names(b)
  {
    forall n | n in Names(a) ensures n in Names(b) {
      var i :| 0 <= i < |a| && a[i].0 == n;
      assert a[i] in multiset(b);
    }
    forall n | n in Names(b) ensures n in Names(a) {
      var i :| 0 <= i < |b| && b[i].0 == n;
      assert b[i] in multiset(a);
    }
  }

  /** After reordering, `id` comes first whenever it is declared. */
  lemma ReorderedIdFirst(cols: Declared)
    requires FirstWith(cols, Id).Some?
    ensures Reordered(cols)[0].0 == "id"
  {
    var a := IdFirst(cols);
    assert !HasRole(a[0].0, Dt);
  }

  /** After reordering, the first declared `*dt` column comes second when there are two columns or more. */
  lemma ReorderedDtSecond(cols: Declared)
    requires FirstWith(cols, Dt).Some? && |cols| >= 2
    ensures Reordered(cols)[1] == cols[FirstWith(cols, Dt).value]
  {
    FirstDtAfterIdFirst(cols, FirstWith(cols, Dt).value);
  }

  /** The loop of lines 123-127: find `id` and move it to the front. */
  method MoveIdFirst(cols: Declared) returns (r: Declared)
    ensures r == IdFirst(cols)
  {
    r := cols;
    var i := 0;
    while i < |r| && r[i].0 != "id"
      invariant 0 <= i <= |r| && r == cols
      invariant forall j :: 0 <= j < i ==> !HasRole(r[j].0, Id)
    {
      i := i + 1;
    }
    if i < |r| {
      FirstWithUnique(cols, Id, i);
      var column := r[i];
      r := r[..i] + r[i + 1..];
      r := [column] + r;
      assert r == [cols[i]] + cols[..i] + cols[i + 1..];
    } else {
      assert FirstWith(cols, Id).None?;
    }
  }

  /** The loop of lines 130-134: find the first `*dt` column and move it to position 1. */
  method MoveDtSecond(cols: Declared) returns (r: Declared)
    ensures r == DtSecond(cols)
  {
    r := cols;
    var k := 0;
    while k < |r| && !EndsWith(r[k].0, "dt")
      invariant 0 <= k <= |r| && r == cols
      invariant forall j :: 0 <= j < k ==> !HasRole(r[j].0, Dt)
    {
      k := k + 1;
    }
    if k < |r| {
      FirstWithUnique(cols, Dt, k);
      var column := r[k];
      r := r[..k] + r[k + 1..];
      var at := if 1 < |r| then 1 else |r|;
      ghost var rest := r;
      r := r[..at] + [column] + r[at..];
      if rest == [] {
        assert r == [column];
      } else {
        assert rest[..at] == [rest[0]] && rest[at..] == rest[1..];
      }
      assert r == ToSecond(cols, k);
    } else {
      assert FirstWith(cols, Dt).None?;
    }
  }

  /** Lines 123-134: `id` first, then the first `*dt` column second. */
  method ReorderColumns(cols: Declared) returns (r: Declared)
    ensures r == Reordered(cols)
  {
    r := MoveIdFirst(cols);
    r := MoveDtSecond(r);
  }

  // ---------------------------------------------------------------------------------------------
  // Column plan
  // ---------------------------------------------------------------------------------------------

  /** The names of the declared columns. */
  function Names(cols: Declared): set<string> {
    set i | 0 <= i < |cols| :: cols[i].0
  }

  /** The names of the columns the database reports. */
  function ExistingNames(schema: seq<ExistingColumn>): set<string> {
    set i | 0 <= i < |schema| :: schema[i].name
  }

  /** `_handle` skips an empty statement. */
  function Handle(statement: string): (r: seq<string>)
    ensures |r| <= 1 && (r == [] <==> statement == "") && forall s :: s in r ==> s == statement
  {
    if statement == "" then [] else [statement]
  }

  /**
   * The condition of lines 143-147 under which an existing column is altered. The database reports
   * `is_nullable` as `YES` or `NO`, both truthy, so a column declared `nullable: NO` always differs.
   */
  predicate Differs(e: ExistingColumn, spec: ColumnSpec): (r: bool)
    ensures spec.nullable != Some("NO") && spec.nullable != Some("YES") ==>
      (r <==> (e.dataType, e.length, e.default) != (spec.dataType, spec.length, spec.default))
    ensures (e.nullable == "YES" || e.nullable == "NO") && spec.nullable == Some("NO") ==> r
  {
    || e.dataType != spec.dataType
    || e.length != spec.length
    || e.default != spec.default
    || (e.nullable != "" && spec.nullable == Some("NO"))
    || (e.nullable == "" && spec.nullable == Some("YES"))
  }

  /** Declared column `c` is the existing column `e` and differs from it (lines 142-147). */
  predicate Alters(e: ExistingColumn, c: (string, ColumnSpec)) {
    c.0 == e.name && Differs(e, c.1)
  }

  /** The statement of lines 148-156 for an existing column. */
  function AlterExisting(b: Builder, table: string, e: ExistingColumn, spec: ColumnSpec): string {
    Build(b, table, e.name, spec.dataType, spec.length, spec.default,
          if Present(spec.nullable) then Some("NO") else None, spec.primaryKey, false)
  }

  /** The statements one declared column contributes for an existing column (lines 142-156). */
  function AlterPiece(b: Builder, table: string, e: ExistingColumn, c: (string, ColumnSpec)): seq<string> {
    if Alters(e, c) then Handle(AlterExisting(b, table, e, c.1)) else []
  }

  /** `AlterPiece` for one existing column, as a function of the declared column. */
  function AlterPieces(b: Builder, table: string, e: ExistingColumn): ((string, ColumnSpec)) -> seq<string> {
    c => AlterPiece(b, table, e, c)
  }

  /** The inner loop of lines 141-156 for one existing column. */
  function AlterOne(b: Builder, table: string, e: ExistingColumn, ordered: Declared): seq<string> {
    Gather(ordered, AlterPieces(b, table, e))
  }

  /** `AlterOne` as a function of the existing column. */
  function AlterOnes(b: Builder, table: string, ordered: Declared): ExistingColumn -> seq<string> {
    e => AlterOne(b, table, e, ordered)
  }

  /** The statements of lines 137-156, in the order the database lists its columns. */
  function AlterStatements(b: Builder, table: string, schema: seq<ExistingColumn>, ordered: Declared): seq<string> {
    Gather(schema, AlterOnes(b, table, ordered))
  }

  /**
   * The statements one existing column yields are non-empty alteration texts of declared columns that
   * are it and differ from it, and each such declaration with a non-empty text yields its statement.
   */
  lemma AlterOneMeaning(b: Builder, table: string, e: ExistingColumn, ordered: Declared)
    ensures forall s :: s in AlterOne(b, table, e, ordered) ==>
      s != "" && exists j :: 0 <= j < |ordered| && Alters(e, ordered[j]) && s == AlterExisting(b, table, e, ordered[j].1)
    ensures forall j :: 0 <= j < |ordered| && Alters(e, ordered[j]) && AlterExisting(b, table, e, ordered[j].1) != "" ==>
      AlterExisting(b, table, e, ordered[j].1) in AlterOne(b, table, e, ordered)
  {
    var f := AlterPieces(b, table, e);
    GatherMembers(ordered, f);
    forall s | s in AlterOne(b, table, e, ordered)
      ensures s != "" && exists j :: 0 <= j < |ordered| && Alters(e, ordered[j]) && s == AlterExisting(b, table, e, ordered[j].1)
    {
      var j :| 0 <= j < |ordered| && s in f(ordered[j]);
      assert s in AlterPiece(b, table, e, ordered[j]);
    }
    forall j | 0 <= j < |ordered| && Alters(e, ordered[j]) && AlterExisting(b, table, e, ordered[j].1) != ""
      ensures AlterExisting(b, table, e, ordered[j].1) in AlterOne(b, table, e, ordered)
    {
      assert AlterExisting(b, table, e, ordered[j].1) in f(ordered[j]);
    }
  }

  /** An existing column that no declaration names yields nothing. */
  lemma AlterOneAbsent(b: Builder, table: string, e: ExistingColumn, ordered: Declared)
    requires forall j :: 0 <= j < |ordered| ==> ordered[j].0 != e.name
    ensures AlterOne(b, table, e, ordered) == []
  {
    var f := AlterPieces(b, table, e);
    forall k | 0 <= k < |ordered| ensures f(ordered[k]) == [] {
      assert !Alters(e, ordered[k]);
    }
    GatherNone(ordered, f);
  }

  /** With distinct declared names, an existing column yields exactly what its own declaration asks for. */
  lemma AlterOneMatch(b: Builder, table: string, e: ExistingColumn, ordered: Declared, j: nat)
    requires DistinctNames(ordered)
    requires j < |ordered| && ordered[j].0 == e.name
    ensures AlterOne(b, table, e, ordered) == AlterPiece(b, table, e, ordered[j])
  {
    var f := AlterPieces(b, table, e);
    forall k | 0 <= k < |ordered| && k != j ensures f(ordered[k]) == [] {
      assert ordered[k].0 != e.name;
      assert !Alters(e, ordered[k]);
    }
    GatherOnly(ordered, f, j);
  }

  /**
   * Every alteration of the whole table is the non-empty alteration text of a declared column for an
   * existing column that it names and differs from.
   */
  lemma AlterStatementsSound(b: Builder, table: string, schema: seq<ExistingColumn>, ordered: Declared)
    ensures forall s :: s in AlterStatements(b, table, schema, ordered) ==>
      s != "" && exists i, j :: 0 <= i < |schema| && 0 <= j < |ordered| && Alters(schema[i], ordered[j])
                                && s == AlterExisting(b, table, schema[i], ordered[j].1)
  {
    var f := AlterOnes(b, table, ordered);
    GatherMembers(schema, f);
    forall s | s in AlterStatements(b, table, schema, ordered)
      ensures s != "" && exists i, j :: 0 <= i < |schema| && 0 <= j < |ordered| && Alters(schema[i], ordered[j])
                                       && s == AlterExisting(b, table, schema[i], ordered[j].1)
    {
      var i :| 0 <= i < |schema| && s in f(schema[i]);
      AlterOneMeaning(b, table, schema[i], ordered);
      assert s in AlterOne(b, table, schema[i], ordered);
    }
  }

  /**
   * Each existing column and each declared column that names it and differs from it, with a
   * non-empty alteration text, yield that text among the alterations of the whole table.
   */
  lemma AlterStatementsComplete(b: Builder, table: string, schema: seq<ExistingColumn>, ordered: Declared)
    ensures forall i, j :: 0 <= i < |schema| && 0 <= j < |ordered| && Alters(schema[i], ordered[j])
                           && AlterExisting(b, table, schema[i], ordered[j].1) != "" ==>
      AlterExisting(b, table, schema[i], ordered[j].1) in AlterStatements(b, table, schema, ordered)
  {
    var f := AlterOnes(b, table, ordered);
    GatherMembers(schema, f);
    forall i, j | 0 <= i < |schema| && 0 <= j < |ordered| && Alters(schema[i], ordered[j]) && AlterExisting(b, table, schema[i], ordered[j].1) != ""
      ensures AlterExisting(b, table, schema[i], ordered[j].1) in AlterStatements(b, table, schema, ordered)
    {
      AlterOneMeaning(b, table, schema[i], ordered);
      assert AlterExisting(b, table, schema[i], ordered[j].1) in f(schema[i]);
    }
  }

  /** `DROP COLUMN` for a column no longer declared. */
  function DropColumn(table: string, column: string): string {
    "ALTER TABLE " + table + " DROP COLUMN " + column + " ;"
  }

  /** `ALTER TABLE t DROP COLUMN c ;` for each listed column. */
  function DropStatements(table: string, columns: seq<string>): (r: seq<string>)
    ensures |r| == |columns| && forall i :: 0 <= i < |columns| ==> r[i] == DropColumn(table, columns[i])
  {
    seq(|columns|, i requires 0 <= i < |columns| => DropColumn(table, columns[i]))
  }

  /** The columns whose names are in `keep`, in the order given. */
  function Kept(ordered: Declared, keep: set<string>): (r: Declared)
    ensures Names(r) == Names(ordered) * keep
    decreases |ordered|
  {
    if ordered == [] then []
    else
      var rest := Kept(ordered[1..], keep);
      assert Names(ordered) == {ordered[0].0} + Names(ordered[1..]) by {
        forall n | n in Names(ordered) ensures n in {ordered[0].0} + Names(ordered[1..]) {
          var i :| 0 <= i < |ordered| && ordered[i].0 == n;
          if i > 0 { assert ordered[1..][i - 1] == ordered[i]; }
        }
        forall n | n in Names(ordered[1..]) ensures n in Names(ordered) {
          var i :| 0 <= i < |ordered[1..]| && ordered[1..][i].0 == n;
          assert ordered[i + 1] == ordered[1..][i];
        }
      }
      if ordered[0].0 !in keep then rest
      else
        var r := [ordered[0]] + rest;
        assert r[0] == ordered[0];
        assert Names(r) == {ordered[0].0} + Names(rest) by {
          forall n | n in Names(r) ensures n in {ordered[0].0} + Names(rest) {
            var i :| 0 <= i < |r| && r[i].0 == n;
            if i > 0 { assert r[i] == rest[i - 1]; }
          }
          forall n | n in Names(rest) ensures n in Names(r) {
            var i :| 0 <= i < |rest| && rest[i].0 == n;
            assert r[i + 1] == rest[i];
          }
        }
        r
  }

  /** The `ADD COLUMN` statement of lines 168-177 for one declared column. */
  function AddOne(b: Builder, table: string, c: (string, ColumnSpec)): string {
    Build(b, table, c.0, c.1.dataType, c.1.length, c.1.default, c.1.nullable, c.1.primaryKey, true)
  }

  /** The `ADD COLUMN` statements of lines 164-177. */
  function AddStatements(b: Builder, table: string, missing: Declared): seq<string>
    decreases |missing|
  {
    if missing == [] then []
    else Handle(AddOne(b, table, missing[0])) + AddStatements(b, table, missing[1..])
  }

  /** Adding one more missing column appends its statement. */
  lemma {:induction false} AddStatementsSnoc(b: Builder, table: string, missing: Declared, c: (string, ColumnSpec))
    ensures AddStatements(b, table, missing + [c]) == AddStatements(b, table, missing) + Handle(AddOne(b, table, c))
    decreases |missing|
  {
    if missing == [] {
      assert [c][1..] == [];
    } else {
      assert (missing + [c])[1..] == missing[1..] + [c];
      AddStatementsSnoc(b, table, missing[1..], c);
    }
  }

  /** One pass of the loop of lines 165-177 appends the statement of a missing column and nothing else. */
  lemma AddStep(b: Builder, table: string, ordered: Declared, missing: set<string>, k: nat)
    requires k < |ordered|
    ensures AddStatements(b, table, Kept(ordered[..k + 1], missing))
         == AddStatements(b, table, Kept(ordered[..k], missing)) + (if ordered[k].0 in missing then Handle(AddOne(b, table, ordered[k])) else [])
  {
    var c := ordered[k];
    assert ordered[..k + 1] == ordered[..k] + [c];
    KeptSnoc(ordered[..k], c, missing);
    if c.0 in missing {
      AddStatementsSnoc(b, table, Kept(ordered[..k], missing), c);
    } else {
      var kept := Kept(ordered[..k], missing);
      assert kept + [] == kept;
      assert Kept(ordered[..k + 1], missing) == kept;
      assert AddStatements(b, table, kept) + [] == AddStatements(b, table, kept);
    }
  }

  /** Filtering one more column keeps it exactly when its name is kept. */
  lemma {:induction false} KeptSnoc(ordered: Declared, c: (string, ColumnSpec), keep: set<string>)
    ensures Kept(ordered + [c], keep) == Kept(ordered, keep) + (if c.0 in keep then [c] else [])
    decreases |ordered|
  {
    if ordered == [] {
      assert [c][1..] == [];
    } else {
      assert (ordered + [c])[1..] == ordered[1..] + [c];
      KeptSnoc(ordered[1..], c, keep);
    }
  }

  /** Every missing column gets exactly one statement, in order: `ADD COLUMN` text is never empty. */
  lemma {:induction false} AddStatementsOnePerColumn(b: Builder, table: string, missing: Declared)
    ensures |AddStatements(b, table, missing)| == |missing|
    ensures forall i :: 0 <= i < |missing| ==> AddStatements(b, table, missing)[i] == AddOne(b, table, missing[i])
    ensures forall i :: 0 <= i < |missing| ==>
      StartsWith(AddStatements(b, table, missing)[i], "ALTER TABLE " + table + " ADD COLUMN " + missing[i].0 + " ")
    decreases |missing|
  {
    if missing != [] {
      var c := missing[0];
      AddColumnShape(b, table, c.0, c.1.dataType, c.1.length, c.1.default, c.1.nullable, c.1.primaryKey);
      AddStatementsOnePerColumn(b, table, missing[1..]);
      var r := AddStatements(b, table, missing);
      forall i | 0 <= i < |missing|
        ensures r[i] == AddOne(b, table, missing[i])
        ensures StartsWith(r[i], "ALTER TABLE " + table + " ADD COLUMN " + missing[i].0 + " ")
      {
        if i > 0 {
          assert r[i] == AddStatements(b, table, missing[1..])[i - 1];
          assert missing[i] == missing[1..][i - 1];
        }
      }
    }
  }

  /** The set of declared column names, built by the loop of lines 118-120. */
  method DeclaredNames(declared: Declared) returns (names: set<string>)
    ensures names == Names(declared)
  {
    names := {};
    var n := 0;
    while n < |declared|
      invariant 0 <= n <= |declared| && names == Names(declared[..n])
    {
      assert Names(declared[..n + 1]) == Names(declared[..n]) + {declared[n].0} by {
        forall x | x in Names(declared[..n + 1]) ensures x in Names(declared[..n]) + {declared[n].0} {
          var i :| 0 <= i < n + 1 && declared[..n + 1][i].0 == x;
          if i < n { assert declared[..n][i] == declared[..n + 1][i]; }
        }
        forall x | x in Names(declared[..n]) ensures x in Names(declared[..n + 1]) {
          var i :| 0 <= i < n && declared[..n][i].0 == x;
          assert declared[..n + 1][i] == declared[..n][i];
        }
        assert declared[..n + 1][n] == declared[n];
      }
      names := names + {declared[n].0};
      n := n + 1;
    }
    assert declared[..n] == declared;
  }

  /**
   * The inner loop of lines 141-156: the statements for one existing column, each the non-empty
   * alteration text of a declaration that is this column and differs from it.
   */
  method AlterOneLoop(b: Builder, table: string, e: ExistingColumn, ordered: Declared) returns (statements: seq<string>)
    ensures statements == AlterOne(b, table, e, ordered)
    ensures forall s :: s in statements ==>
      s != "" && exists j :: 0 <= j < |ordered| && Alters(e, ordered[j]) && s == AlterExisting(b, table, e, ordered[j].1)
    ensures forall j :: 0 <= j < |ordered| && Alters(e, ordered[j]) && AlterExisting(b, table, e, ordered[j].1) != "" ==>
      AlterExisting(b, table, e, ordered[j].1) in statements
  {
    statements := [];
    var j := 0;
    while j < |ordered|
      invariant 0 <= j <= |ordered|
      invariant statements == AlterOne(b, table, e, ordered[..j])
    {
      GatherStep(ordered, AlterPieces(b, table, e), j);
      var c := ordered[j];
      if c.0 == e.name && Differs(e, c.1) {
        statements := statements + Handle(AlterExisting(b, table, e, c.1));
      }
      j := j + 1;
    }
    assert ordered[..j] == ordered;
    AlterOneMeaning(b, table, e, ordered);
  }

  /**
   * The outer loop of lines 137-156: the alterations of mismatched columns, each a non-empty alteration
   * text for an existing column and a declaration with its name that differs from it, and the set of
   * existing names.
   */
  method AlterLoop(b: Builder, table: string, schema: seq<ExistingColumn>, ordered: Declared) returns (statements: seq<string>, existing: set<string>)
    ensures statements == AlterStatements(b, table, schema, ordered)
    ensures forall s :: s in statements ==>
      s != "" && exists i, j :: 0 <= i < |schema| && 0 <= j < |ordered| && Alters(schema[i], ordered[j])
                                && s == AlterExisting(b, table, schema[i], ordered[j].1)
    ensures forall i, j :: 0 <= i < |schema| && 0 <= j < |ordered| && Alters(schema[i], ordered[j])
                           && AlterExisting(b, table, schema[i], ordered[j].1) != "" ==>
      AlterExisting(b, table, schema[i], ordered[j].1) in statements
    ensures existing == ExistingNames(schema)
  {
    statements := [];
    existing := {};
    var i := 0;
    while i < |schema|
      invariant 0 <= i <= |schema|
      invariant existing == set j | 0 <= j < i :: schema[j].name
      invariant statements == AlterStatements(b, table, schema[..i], ordered)
    {
      GatherStep(schema, AlterOnes(b, table, ordered), i);
      existing := existing + {schema[i].name};
      var more := AlterOneLoop(b, table, schema[i], ordered);
      statements := statements + more;
      i := i + 1;
    }
    assert schema[..i] == schema;
    AlterStatementsSound(b, table, schema, ordered);
    AlterStatementsComplete(b, table, schema, ordered);
  }

  /** The loop of lines 159-161: one `DROP COLUMN` per unused column, in some order. */
  method DropLoop(table: string, unused: set<string>) returns (statements: seq<string>, dropped: seq<string>)
    ensures Elements(dropped) == unused && DistinctStrings(dropped)
    ensures statements == DropStatements(table, dropped)
  {
    statements := [];
    dropped := [];
    var rest := unused;
    while rest != {}
      invariant rest <= unused
      invariant Elements(dropped) == unused - rest && DistinctStrings(dropped)
      invariant statements == DropStatements(table, dropped)
      decreases rest
    {
      var column :| column in rest;
      assert Elements(dropped + [column]) == Elements(dropped) + {column};
      statements := statements + [DropColumn(table, column)];
      dropped := dropped + [column];
      rest := rest - {column};
    }
  }

  /** The loop of lines 164-177: `ADD COLUMN` for each missing column, in the reordered order. */
  method AddLoop(b: Builder, table: string, ordered: Declared, missing: set<string>) returns (statements: seq<string>)
    ensures statements == AddStatements(b, table, Kept(ordered, missing))
  {
    statements := [];
    var k := 0;
    while k < |ordered|
      invariant 0 <= k <= |ordered|
      invariant statements == AddStatements(b, table, Kept(ordered[..k], missing))
    {
      var c := ordered[k];
      AddStep(b, table, ordered, missing, k);
      if c.0 in missing {
        statements := statements + Handle(AddOne(b, table, c));
      }
      k := k + 1;
    }
    assert ordered[..k] == ordered;
  }

  /**
   * The column part of `apply` for one table (lines 110-177): `CREATE TABLE` when the database knows
   * no column; alterations of mismatched existing columns; one `DROP COLUMN` per column no longer
   * declared, in an unspecified (set) order; one `ADD COLUMN` per missing column, in reordered order.
   * With `AsWritten` these are the statements `apply` hands to `_handle`.
   */
  method PlanColumns(b: Builder, table: string, schema: seq<ExistingColumn>, declared: Declared) returns (statements: seq<string>, dropped: seq<string>)
    ensures Elements(dropped) == ExistingNames(schema) - Names(declared) && DistinctStrings(dropped)
    ensures statements == (if schema == [] then ["CREATE TABLE " + table + " () ;"] else [])
                          + AlterStatements(b, table, schema, Reordered(declared))
                          + DropStatements(table, dropped)
                          + AddStatements(b, table, Kept(Reordered(declared), Names(declared) - ExistingNames(schema)))
  {
    statements := if |schema| == 0 then ["CREATE TABLE " + table + " () ;"] else [];
    var declaredNames := DeclaredNames(declared);
    var ordered := ReorderColumns(declared);
    var alters, existing := AlterLoop(b, table, schema, ordered);
    var drops;
    drops, dropped := DropLoop(table, existing - declaredNames);
    var adds := AddLoop(b, table, ordered, declaredNames - existing);
    statements := statements + alters + drops + adds;
  }

  /** Exactly the declared columns the table lacks are added, one `ADD COLUMN` statement each. */
  lemma AddedAreMissing(b: Builder, table: string, schema: seq<ExistingColumn>, declared: Declared)
    ensures var added := Kept(Reordered(declared), Names(declared) - ExistingNames(schema));
      && Names(added) == Names(declared) - ExistingNames(schema)
      && |AddStatements(b, table, added)| == |added|
  {
    ReorderedNames(declared);
    AddStatementsOnePerColumn(b, table, Kept(Reordered(declared), Names(declared) - ExistingNames(schema)));
  }

  // ---------------------------------------------------------------------------------------------
  // Index plan
  // ---------------------------------------------------------------------------------------------

  /** Lines 202-210: an existing index that is still declared and whose rebuilt text differs from its definition. */
  predicate Outdated(table: string, e: ExistingIndex, declared: map<string, IndexSpec>) {
    e.name in declared && IndexString(table, e.name, declared[e.name].columns, declared[e.name].unique) != e.definition
  }

  /** `DROP INDEX i ;` */
  function DropIndex(index: string): string {
    "DROP INDEX " + index + " ;"
  }

  /** The `CREATE INDEX` statement of line 212 for a declared index. */
  function Recreate(table: string, index: string, declared: map<string, IndexSpec>): string
    requires index in declared
  {
    IndexString(table, index, declared[index].columns, declared[index].unique) + " ;"
  }

  /** Lines 202-212: an outdated index is dropped and recreated. */
  function RebuildPiece(table: string, e: ExistingIndex, declared: map<string, IndexSpec>): seq<string> {
    if Outdated(table, e, declared) then [DropIndex(e.name), Recreate(table, e.name, declared)] else []
  }

  /** `RebuildPiece` as a function of the existing index. */
  function RebuildPieces(table: string, declared: map<string, IndexSpec>): ExistingIndex -> seq<string> {
    e => RebuildPiece(table, e, declared)
  }

  /** Lines 197-212: the rebuild statements of every existing index, in the order the database lists them. */
  function RebuildStatements(table: string, existing: seq<ExistingIndex>, declared: map<string, IndexSpec>): seq<string> {
    Gather(existing, RebuildPieces(table, declared))
  }

  /** An index whose definition already matches its declaration is left alone. */
  lemma UpToDateIndexesKept(table: string, existing: seq<ExistingIndex>, declared: map<string, IndexSpec>)
    requires forall i :: 0 <= i < |existing| && existing[i].name in declared ==>
      existing[i].definition == IndexString(table, existing[i].name, declared[existing[i].name].columns, declared[existing[i].name].unique)
    ensures RebuildStatements(table, existing, declared) == []
  {
    var f := RebuildPieces(table, declared);
    forall k | 0 <= k < |existing| ensures f(existing[k]) == [] {
      assert !Outdated(table, existing[k], declared);
    }
    GatherNone(existing, f);
  }

  /** Every rebuild statement drops or recreates an outdated index. */
  lemma RebuildSound(table: string, existing: seq<ExistingIndex>, declared: map<string, IndexSpec>)
    ensures forall s :: s in RebuildStatements(table, existing, declared) ==>
      exists k :: 0 <= k < |existing| && Outdated(table, existing[k], declared)
                  && (s == DropIndex(existing[k].name) || s == Recreate(table, existing[k].name, declared))
  {
    var f := RebuildPieces(table, declared);
    GatherMembers(existing, f);
    forall s | s in RebuildStatements(table, existing, declared)
      ensures exists k :: 0 <= k < |existing| && Outdated(table, existing[k], declared)
                          && (s == DropIndex(existing[k].name) || s == Recreate(table, existing[k].name, declared))
    {
      var k :| 0 <= k < |existing| && s in f(existing[k]);
      assert s in RebuildPiece(table, existing[k], declared);
    }
  }

  /** Each outdated index is dropped by a rebuild statement immediately followed by its `CREATE` text. */
  lemma RebuildComplete(table: string, existing: seq<ExistingIndex>, declared: map<string, IndexSpec>, k: nat)
    requires k < |existing| && Outdated(table, existing[k], declared)
    ensures exists p :: 0 <= p < |RebuildStatements(table, existing, declared)| - 1
                        && RebuildStatements(table, existing, declared)[p] == DropIndex(existing[k].name)
                        && RebuildStatements(table, existing, declared)[p + 1] == Recreate(table, existing[k].name, declared)
  {
    var f := RebuildPieces(table, declared);
    var r := RebuildStatements(table, existing, declared);
    GatherSlice(existing, f, k);
    var p := |Gather(existing[..k], f)|;
    var piece := [DropIndex(existing[k].name), Recreate(table, existing[k].name, declared)];
    assert f(existing[k]) == piece;
    assert r[p..p + 2] == piece;
    assert r[p] == piece[0] && r[p + 1] == piece[1];
  }

  /** `DROP INDEX i ;` for each listed index. */
  function DropIndexStatements(indexes: seq<string>): (r: seq<string>)
    ensures |r| == |indexes| && forall i :: 0 <= i < |indexes| ==> r[i] == DropIndex(indexes[i])
  {
    seq(|indexes|, i requires 0 <= i < |indexes| => DropIndex(indexes[i]))
  }

  /** The `CREATE INDEX` text (without `;`) for each listed declared index. */
  function CreateIndexStatements(table: string, indexes: seq<string>, declared: map<string, IndexSpec>): (r: seq<string>)
    requires Elements(indexes) <= declared.Keys
    ensures |r| == |indexes|
    ensures forall i :: 0 <= i < |indexes| ==> r[i] == IndexString(table, indexes[i], declared[indexes[i]].columns, declared[indexes[i]].unique)
  {
    seq(|indexes|, i requires 0 <= i < |indexes| => IndexString(table, indexes[i], declared[indexes[i]].columns, declared[indexes[i]].unique))
  }

  /** Lists the elements of a set, in some order. */
  method ListOf(s: set<string>) returns (order: seq<string>)
    ensures Elements(order) == s && DistinctStrings(order)
  {
    order := [];
    var rest := s;
    while rest != {}
      invariant rest <= s && Elements(order) == s - rest && DistinctStrings(order)
      decreases rest
    {
      var x :| x in rest;
      assert Elements(order + [x]) == Elements(order) + {x};
      order := order + [x];
      rest := rest - {x};
    }
  }

  /** The loop of lines 196-212: rebuild each outdated index, and collect the existing names. */
  method RebuildLoop(table: string, existing: seq<ExistingIndex>, declared: map<string, IndexSpec>) returns (statements: seq<string>, names: set<string>)
    ensures statements == RebuildStatements(table, existing, declared)
    ensures names == set i | 0 <= i < |existing| :: existing[i].name
  {
    statements := [];
    names := {};
    var i := 0;
    while i < |existing|
      invariant 0 <= i <= |existing|
      invariant names == set j | 0 <= j < i :: existing[j].name
      invariant statements == RebuildStatements(table, existing[..i], declared)
    {
      GatherStep(existing, RebuildPieces(table, declared), i);
      names := names + {existing[i].name};
      var e := existing[i];
      if e.name in declared {
        var text := IndexString(table, e.name, declared[e.name].columns, declared[e.name].unique);
        if text != e.definition {
          statements := statements + Handle(DropIndex(e.name)) + Handle(text + " ;");
        }
      }
      i := i + 1;
    }
    assert existing[..i] == existing;
  }

  /**
   * The index part of `apply` for one table (lines 190-228): rebuilds, then one `DROP INDEX` per
   * index no longer declared, then one `CREATE INDEX` per declared index missing, both in an
   * unspecified (set) order.
   */
  method PlanIndexes(table: string, existing: seq<ExistingIndex>, declared: map<string, IndexSpec>)
    returns (statements: seq<string>, dropped: seq<string>, added: seq<string>)
    ensures var names := set i | 0 <= i < |existing| :: existing[i].name;
      && Elements(dropped) == names - declared.Keys && DistinctStrings(dropped)
      && Elements(added) == declared.Keys - names && DistinctStrings(added)
      && statements == RebuildStatements(table, existing, declared) + DropIndexStatements(dropped)
                       + CreateIndexStatements(table, added, declared)
  {
    var names;
    statements, names := RebuildLoop(table, existing, declared);
    dropped := ListOf(names - declared.Keys);
    statements := statements + DropIndexStatements(dropped);
    added := ListOf(declared.Keys - names);
    statements := statements + CreateIndexStatements(table, added, declared);
  }
}
