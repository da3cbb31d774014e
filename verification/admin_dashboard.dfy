/** The admin dashboard (SystemAdminDashboard.jsx): two tables fed by two
    independent fetches, one shared text filter that matches any field of
    a row, the owner-email placeholder attached to every fetched store,
    and the overview cards. */
module AdminDashboard {

  import opened Common
  import Text
  import Seqs

  /** `Number.MAX_SAFE_INTEGER`: up to this magnitude `JSON.parse` keeps an
      integer exactly and `String` prints it in plain decimal. */
  const MaxSafeInteger := 9007199254740991

  type SafeInt = n: int | -MaxSafeInteger <= n <= MaxSafeInteger

  /** A JSON field value as the table rows hold them. */
  datatype Value = Str(s: string) | Int(n: SafeInt) | Bool(b: bool) | Null

  /** One property of a row object, in insertion order. */
  datatype Field = Field(key: string, value: Value)

  /** A user or store object as returned by the server. */
  type Row = seq<Field>

  /** `String(value)`. */
  function ToText(v: Value): (t: string)
    ensures v.Str? ==> t == v.s
    ensures v.Int? ==> t == Text.IntToString(v.n)
    ensures v.Bool? ==> t == (if v.b then "true" else "false")
    ensures v == Null ==> t == "null"
  {
    match v
    case Str(s) => s
    case Int(n) => Text.IntToString(n)
    case Bool(b) => if b then "true" else "false"
    case Null => "null"
  }

  /** The row filter: `Object.values(row).some(v => String(v).toLowerCase().includes(filter.toLowerCase()))`. */
  predicate RowMatches(row: Row, filter: string)
  {
    exists i :: 0 <= i < |row| && Text.MatchesIgnoringCase(ToText(row[i].value), filter)
  }

  /** `filteredUsers` and `filteredStores`: the rows some field of which
      contains the filter, ignoring case, in their original order. */
  function FilterRows(rows: seq<Row>, filter: string): (r: seq<Row>)
    ensures forall row :: row in r <==> row in rows && RowMatches(row, filter)
    ensures forall row: Row :: row in r ==>
      (exists i :: 0 <= i < |row| && Text.Occurs(Text.Lower(filter), Text.Lower(ToText(row[i].value))))
  {
    Seqs.Filter(rows, row => RowMatches(row, filter))
  }

  /** The filtered table keeps the order of the fetched rows. */
  lemma FilterRowsKeepsOrder(rows: seq<Row>, filter: string)
    ensures Seqs.SubseqOf(FilterRows(rows, filter), rows)
  {
    Seqs.FilterIsSubseq(rows, row => RowMatches(row, filter));
  }

  /** A row with at least one field matches the empty filter. */
  lemma NonEmptyRowMatchesEmpty(row: Row)
    requires |row| > 0
    ensures RowMatches(row, "")
  {
    assert Text.Lower("") == "";
    Text.IncludesEmpty(Text.Lower(ToText(row[0].value)));
  }

  /** The empty filter keeps every row that has a field. */
  lemma EmptyFilterKeepsAll(rows: seq<Row>)
    requires forall i :: 0 <= i < |rows| ==> |rows[i]| > 0
    ensures FilterRows(rows, "") == rows
  {
    forall i | 0 <= i < |rows|
      ensures RowMatches(rows[i], "")
    {
      NonEmptyRowMatchesEmpty(rows[i]);
    }
    Seqs.FilterKeepsAll(rows, row => RowMatches(row, ""));
  }

  /** A row with no fields matches no filter, not even the empty one:
      `[].some(...)` is false. */
  lemma FieldlessRowNeverShown(rows: seq<Row>, filter: string)
    ensures [] !in FilterRows(rows, filter)
  {
  }

  /** Filters equal up to case select the same rows. */
  lemma FilterIgnoresCase(rows: seq<Row>, f: string, g: string)
    requires Text.Lower(f) == Text.Lower(g)
    ensures FilterRows(rows, f) == FilterRows(rows, g)
  {
    Seqs.FilterCongruent(rows, row => RowMatches(row, f), row => RowMatches(row, g));
  }

  /** Non-string fields are matched through their printed form: a number
      field is found by its decimal digits, and a null field by "NULL" in
      any case. */
  lemma PrintedFieldsMatch(row: Row, i: nat)
    requires i < |row|
    ensures row[i].value.Int? ==> RowMatches(row, Text.IntToString(row[i].value.n))
    ensures row[i].value == Null ==> RowMatches(row, "NULL")
  {
    if row[i].value.Int? {
      Text.MatchesSelf(ToText(row[i].value));
    }
    if row[i].value == Null {
      assert Text.Lower("NULL") == "null";
      assert Text.At(Text.Lower("NULL"), Text.Lower(ToText(row[i].value)), 0);
    }
  }

  /** The keys of a row object, in insertion order (`Object.keys`). */
  function Keys(row: Row): (ks: seq<string>)
    ensures |ks| == |row|
    ensures forall i :: 0 <= i < |row| ==> ks[i] == row[i].key
  {
    if row == [] then [] else [row[0].key] + Keys(row[1..])
  }

  /** `row[key]`: the value of the first field with that key. */
  function Get(row: Row, key: string): (v: Option<Value>)
    ensures v.Some? <==> key in Keys(row)
  {
    if row == [] then None
    else if row[0].key == key then Some(row[0].value)
    else Get(row[1..], key)
  }

  /** A value `Get` finds is the value of some field of the row. */
  lemma {:induction false} GetFindsField(row: Row, key: string) returns (j: nat)
    requires Get(row, key).Some?
    ensures j < |row| && row[j] == Field(key, Get(row, key).value)
  {
    if row[0].key == key {
      j := 0;
    } else {
      var j' := GetFindsField(row[1..], key);
      j := j' + 1;
    }
  }

  /** A well-formed object: no key appears twice. */
  ghost predicate UniqueKeys(row: Row)
  {
    forall i, j :: 0 <= i < j < |row| ==> row[i].key != row[j].key
  }

  /** `{ ...row, [key]: v }`: an existing field keeps its place and takes
      the new value; a new key is appended at the end. */
  function SetField(row: Row, key: string, v: Value): (r: Row)
    ensures key in Keys(row) ==> Keys(r) == Keys(row)
    ensures key !in Keys(row) ==> Keys(r) == Keys(row) + [key]
  {
    if row == [] then [Field(key, v)]
    else if row[0].key == key then [Field(key, v)] + row[1..]
    else [row[0]] + SetField(row[1..], key, v)
  }

  /** After the spread, the key reads the new value and every other key
      reads what it read before. */
  lemma {:induction false} SetFieldGet(row: Row, key: string, v: Value, k: string)
    ensures Get(SetField(row, key, v), k) == if k == key then Some(v) else Get(row, k)
  {
    if row != [] && row[0].key != key {
      SetFieldGet(row[1..], key, v, k);
    }
  }

  /** Setting a field keeps an object well formed. */
  lemma SetFieldKeepsUnique(row: Row, key: string, v: Value)
    requires UniqueKeys(row)
    ensures UniqueKeys(SetField(row, key, v))
  {
    var r := SetField(row, key, v);
    if key !in Keys(row) {
      forall i, j | 0 <= i < j < |r|
        ensures r[i].key != r[j].key
      {
        assert Keys(r)[i] == r[i].key && Keys(r)[j] == r[j].key;
        if j == |row| {
          assert Keys(row)[i] == r[i].key;
        } else {
          assert Keys(row)[i] == r[i].key && Keys(row)[j] == r[j].key;
        }
      }
    } else {
      forall i, j | 0 <= i < j < |r|
        ensures r[i].key != r[j].key
      {
        assert Keys(r)[i] == r[i].key && Keys(r)[j] == r[j].key;
        assert Keys(row)[i] == r[i].key && Keys(row)[j] == r[j].key;
      }
    }
  }

  const OwnerEmailKey := "ownerEmail"
  const OwnerEmail := "owner@example.com"

  /** The mapping applied to the fetched stores: the placeholder owner
      email on every store, everything else as received. */
  function AttachOwnerEmail(stores: seq<Row>): (r: seq<Row>)
    ensures |r| == |stores|
    ensures forall i :: 0 <= i < |r| ==> Get(r[i], OwnerEmailKey) == Some(Str(OwnerEmail))
    ensures forall i, k :: 0 <= i < |r| && k != OwnerEmailKey ==> Get(r[i], k) == Get(stores[i], k)
  {
    var r := seq(|stores|, i requires 0 <= i < |stores| => SetField(stores[i], OwnerEmailKey, Str(OwnerEmail)));
    assert forall i, k :: 0 <= i < |r| ==> Get(r[i], k) == if k == OwnerEmailKey then Some(Str(OwnerEmail)) else Get(stores[i], k) by {
      forall i, k | 0 <= i < |r|
        ensures Get(r[i], k) == if k == OwnerEmailKey then Some(Str(OwnerEmail)) else Get(stores[i], k)
      {
        SetFieldGet(stores[i], OwnerEmailKey, Str(OwnerEmail), k);
      }
    }
    r
  }

  /** Every store carries the placeholder email, so any filter it contains
      ("owner", "example", ".com", ...) keeps the whole store table. */
  lemma OwnerEmailFilterKeepsAll(stores: seq<Row>, filter: string)
    requires Text.MatchesIgnoringCase(OwnerEmail, filter)
    ensures FilterRows(AttachOwnerEmail(stores), filter) == AttachOwnerEmail(stores)
  {
    var r := AttachOwnerEmail(stores);
    forall i | 0 <= i < |r|
      ensures RowMatches(r[i], filter)
    {
      var j := GetFindsField(r[i], OwnerEmailKey);
      assert ToText(r[i][j].value) == OwnerEmail;
    }
    Seqs.FilterKeepsAll(r, row => RowMatches(row, filter));
  }

  datatype Tab = UsersTab | StoresTab

  /** The answer of one of the two mount-time fetches. */
  datatype Fetch = Got(rows: seq<Row>) | Failed

  datatype AdminState = AdminState(
    tab: Tab, filter: string, users: seq<Row>, stores: seq<Row>,
    loadingUsers: bool, loadingStores: bool)

  /** The mounted dashboard: users tab, empty filter, both fetches pending. */
  const Initial := AdminState(UsersTab, "", [], [], true, true)

  /** `fetchUsers` settles: success replaces the users; `finally` clears its flag. */
  function UsersSettled(s: AdminState, f: Fetch): (t: AdminState)
    ensures !t.loadingUsers && t.loadingStores == s.loadingStores
    ensures t.users == (if f.Got? then f.rows else s.users)
    ensures t.stores == s.stores && t.tab == s.tab && t.filter == s.filter
  {
    s.(users := if f.Got? then f.rows else s.users, loadingUsers := false)
  }

  /** `fetchStores` settles: success stores the rows with the owner email
      attached; `finally` clears its flag. */
  function StoresSettled(s: AdminState, f: Fetch): (t: AdminState)
    ensures !t.loadingStores && t.loadingUsers == s.loadingUsers
    ensures f.Got? ==> t.stores == AttachOwnerEmail(f.rows)
    ensures f.Failed? ==> t.stores == s.stores
    ensures t.users == s.users && t.tab == s.tab && t.filter == s.filter
  {
    s.(stores := if f.Got? then AttachOwnerEmail(f.rows) else s.stores, loadingStores := false)
  }

  /** A tab button: only the tab changes; the filter carries over. */
  function SelectTab(s: AdminState, tab: Tab): (t: AdminState)
    ensures t.tab == tab && t.filter == s.filter
    ensures t.users == s.users && t.stores == s.stores
    ensures t.loadingUsers == s.loadingUsers && t.loadingStores == s.loadingStores
  {
    s.(tab := tab)
  }

  /** Typing in either table's filter box: only the filter changes. */
  function SetFilter(s: AdminState, filter: string): (t: AdminState)
    ensures t.filter == filter && t.tab == s.tab
    ensures t.users == s.users && t.stores == s.stores
    ensures t.loadingUsers == s.loadingUsers && t.loadingStores == s.loadingStores
  {
    s.(filter := filter)
  }

  /** What the content area shows below the overview cards. */
  datatype View = LoadingView | UserTable(rows: seq<Row>) | StoreTable(rows: seq<Row>)

  function ViewOf(s: AdminState): (v: View)
    ensures v == LoadingView <==> s.loadingUsers || s.loadingStores
    ensures v.UserTable? <==> !s.loadingUsers && !s.loadingStores && s.tab.UsersTab?
    ensures v.StoreTable? <==> !s.loadingUsers && !s.loadingStores && s.tab.StoresTab?
    ensures v.UserTable? ==> v.rows == FilterRows(s.users, s.filter)
    ensures v.StoreTable? ==> v.rows == FilterRows(s.stores, s.filter)
  {
    if s.loadingUsers || s.loadingStores then LoadingView
    else if s.tab == UsersTab then UserTable(FilterRows(s.users, s.filter))
    else StoreTable(FilterRows(s.stores, s.filter))
  }

  const TotalRatings := 150

  /** The three overview cards: unfiltered counts and the fixed ratings total. */
  datatype Overview = Overview(totalUsers: nat, totalStores: nat, totalRatings: nat)

  function OverviewOf(s: AdminState): (o: Overview)
    ensures o.totalUsers == |s.users| && o.totalStores == |s.stores|
    ensures o.totalRatings == TotalRatings
  {
    Overview(|s.users|, |s.stores|, TotalRatings)
  }

  /** The dashboard keeps loading until both fetches have settled, in
      either order and whatever their outcome; then the tab picks the table. */
  lemma LoadingUntilBothSettle(fu: Fetch, fs: Fetch)
    ensures ViewOf(UsersSettled(Initial, fu)) == LoadingView
    ensures ViewOf(StoresSettled(Initial, fs)) == LoadingView
    ensures StoresSettled(UsersSettled(Initial, fu), fs) == UsersSettled(StoresSettled(Initial, fs), fu)
    ensures ViewOf(StoresSettled(UsersSettled(Initial, fu), fs)).UserTable?
  {
  }

  /** A failed user fetch leaves an empty table and a zero count. */
  lemma FailedUsersShowZero(fs: Fetch)
    ensures OverviewOf(StoresSettled(UsersSettled(Initial, Failed), fs)).totalUsers == 0
    ensures ViewOf(StoresSettled(UsersSettled(Initial, Failed), fs)) == UserTable([])
  {
  }

  /** The overview counts what was fetched, not what the filter shows. */
  lemma OverviewIgnoresFilter(s: AdminState, filter: string)
    ensures OverviewOf(SetFilter(s, filter)) == OverviewOf(s)
  {
  }

  /** One filter serves both tabs: text typed above the user table also
      filters the store table after switching tabs. */
  lemma FilterSharedAcrossTabs(s: AdminState, filter: string)
    requires !s.loadingUsers && !s.loadingStores
    ensures ViewOf(SelectTab(SetFilter(s, filter), StoresTab)) == StoreTable(FilterRows(s.stores, filter))
  {
  }
}
