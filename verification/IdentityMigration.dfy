/** Merging the users of many dashboard databases into one identity store, transaction by transaction. */
module IdentityMigration {
  import opened Options
  import opened Text
  import opened Substitution

  datatype User = User(id: string, username: string, role: string, passwordHash: Option<string>, canWrite: bool,
                       tokenVersion: int, createdAt: Option<int>, lastLoginAt: Option<int>,
                       lastSettingsVisitAt: Option<int>)

  /** A (table, column) that holds user ids. */
  type Column = (string, string)

  const USER_REFERENCE_COLUMNS: seq<Column> := [
    ("sessions", "user_id"), ("upload_tasks", "created_by_user_id"), ("saved_filters", "user_id"),
    ("dim_event", "uploaded_by_user_id"), ("dim_event", "last_updated_by_user_id"), ("audit_log", "user_id"),
    ("event_access_log", "user_id"), ("custom_field_definitions", "created_by_user_id"),
    ("user_preferences", "user_id")]

  /** The one listed column that is its table's primary key. */
  predicate IsKey(c: Column) { c == ("user_preferences", "user_id") }

  /** A dashboard database: its own users table and the id columns it has. */
  datatype Dashboard = Dashboard(legacyUsers: seq<User>, refs: map<Column, seq<Ref>>)

  /** The identity store (users by username and the done mark) and the managed dashboards by path. */
  datatype Host = Host(users: map<string, User>, done: bool, dashboards: map<string, Dashboard>)

  // ----- reading legacy users

  function Normalized(u: User): User {
    if IsBlank(u.username) then u else u.(username := Strip(u.username))
  }

  function Readable(rows: seq<User>): (r: seq<User>) {
    if rows == [] then []
    else
      var n := |rows| - 1;
      Readable(rows[..n]) + if rows[n].id != "" && rows[n].username != "" then [Normalized(rows[n])] else []
  }

  function Legacy(h: Host, path: string): seq<User> {
    if path in h.dashboards then Readable(h.dashboards[path].legacyUsers) else []
  }

  function AllLegacy(h: Host, paths: seq<string>): seq<User> {
    if paths == [] then [] else AllLegacy(h, paths[..|paths| - 1]) + Legacy(h, paths[|paths| - 1])
  }

  /** Rows are read in their order; those without id or name drop out, and a name that is not blank loses the
      spaces around it. */
  lemma {:induction false} ReadableSplit(a: seq<User>, b: seq<User>)
    ensures Readable(a + b) == Readable(a) + Readable(b)
  {
    if b == [] {
      assert a + b == a;
    } else {
      var init, last := b[..|b| - 1], b[|b| - 1];
      assert (a + b)[..|a + b| - 1] == a + init && (a + b)[|a + b| - 1] == last;
      ReadableSplit(a, init);
      ReadableOf(a + b);
      ReadableOf(b);
    }
  }

  lemma ReadableOf(rows: seq<User>)
    ensures rows != [] ==>
              Readable(rows) == Readable(rows[..|rows| - 1]) + Readable([rows[|rows| - 1]])
  {
    if rows != [] {
      var last := rows[|rows| - 1];
      assert [last][..0] == [] && [last][0] == last;
    }
  }

  lemma ReadableRow(u: User)
    ensures Readable([u]) == if u.id == "" || u.username == "" then []
                             else if IsBlank(u.username) then [u] else [u.(username := Strip(u.username))]
  {
    assert [u][..0] == [];
  }

  lemma {:induction false} AllLegacySplit(h: Host, a: seq<string>, b: seq<string>)
    ensures AllLegacy(h, a + b) == AllLegacy(h, a) + AllLegacy(h, b)
  {
    if b == [] {
      assert a + b == a;
    } else {
      assert (a + b)[..|a + b| - 1] == a + b[..|b| - 1];
      AllLegacySplit(h, a, b[..|b| - 1]);
    }
  }

  /** The first row of every username that is not blank and not known yet, in reading order. */
  function FirstSeen(rows: seq<User>, known: set<string>): seq<User> {
    if rows == [] then []
    else if IsBlank(rows[0].username) || rows[0].username in known then FirstSeen(rows[1..], known)
    else [rows[0]] + FirstSeen(rows[1..], known + {rows[0].username})
  }

  lemma {:induction false} FirstSeenFrom(rows: seq<User>, known: set<string>)
    ensures forall u :: u in FirstSeen(rows, known) ==> u in rows && u.username !in known && !IsBlank(u.username)
  {
    if rows != [] {
      assert rows == [rows[0]] + rows[1..];
      if IsBlank(rows[0].username) || rows[0].username in known {
        FirstSeenFrom(rows[1..], known);
      } else {
        FirstSeenFrom(rows[1..], known + {rows[0].username});
      }
    }
  }

  // ----- inserting users

  function Stored(u: User): User {
    u.(canWrite := u.canWrite || u.role == "admin")
  }

  function NamesOf(rows: seq<User>): (r: set<string>)
    ensures forall k :: 0 <= k < |rows| ==> rows[k].username in r
    ensures forall name :: name in r ==> exists k :: 0 <= k < |rows| && rows[k].username == name
  {
    if rows == [] then {} else {rows[0].username} + NamesOf(rows[1..])
  }

  function InsertOne(users: map<string, User>, u: User): map<string, User> {
    if u.username in users then users else users[u.username := Stored(u)]
  }

  function InsertAll(users: map<string, User>, rows: seq<User>): map<string, User>
    decreases |rows|
  {
    if rows == [] then users else InsertAll(InsertOne(users, rows[0]), rows[1..])
  }

  function MergedUsers(h: Host, paths: seq<string>): map<string, User> {
    InsertAll(h.users, FirstSeen(AllLegacy(h, paths), h.users.Keys))
  }

  // ----- remapping references

  /** `dict[key] = value`: overwrite in place or append. */
  function DictSet(pairs: seq<Pair>, p: Pair): seq<Pair> {
    if pairs == [] then [p]
    else if pairs[0].old_ == p.old_ then [p] + pairs[1..]
    else [pairs[0]] + DictSet(pairs[1..], p)
  }

  /** The id map of a dashboard: legacy id to the id of the merged user with the same name. */
  function IdPairs(rows: seq<User>, users: map<string, User>): seq<Pair> {
    if rows == [] then []
    else
      var n := |rows| - 1;
      var before := IdPairs(rows[..n], users);
      if rows[n].username in users then DictSet(before, Pair(rows[n].id, users[rows[n].username].id)) else before
  }

  function RewriteAll(pairs: seq<Pair>, values: seq<Ref>): (r: seq<Ref>)
    ensures |r| == |values| && forall k :: 0 <= k < |r| ==> r[k] == Rewrite(pairs, values[k])
  {
    seq(|values|, k requires 0 <= k < |values| => Rewrite(pairs, values[k]))
  }

  function Remapped(d: Dashboard, pairs: seq<Pair>, listed: seq<Column>): Dashboard {
    d.(refs := map c | c in d.refs :: if c in listed then RewriteAll(pairs, d.refs[c]) else d.refs[c])
  }

  // ----- the migration as a list of transactions

  datatype Txn =
    | InsertUser(user: User)
    | Remap(path: string, pairs: seq<Pair>)
    | MarkDone

  function ApplyOne(h: Host, t: Txn, listed: seq<Column>): Host {
    match t
    case InsertUser(u) => h.(users := InsertOne(h.users, u))
    case Remap(path, pairs) =>
      if path in h.dashboards
      then h.(dashboards := h.dashboards[path := Remapped(h.dashboards[path], pairs, listed)]) else h
    case MarkDone => h.(done := true)
  }

  function ApplyAll(h: Host, ts: seq<Txn>, listed: seq<Column>): Host
    decreases |ts|
  {
    if ts == [] then h else ApplyAll(ApplyOne(h, ts[0], listed), ts[1..], listed)
  }

  function Inserts(rows: seq<User>): (r: seq<Txn>)
    ensures |r| == |rows|
  {
    seq(|rows|, k requires 0 <= k < |rows| => InsertUser(rows[k]))
  }

  /** One remap per dashboard; an empty id map changes nothing. */
  function Remaps(h: Host, paths: seq<string>, users: map<string, User>): (r: seq<Txn>)
    ensures |r| == |paths|
  {
    seq(|paths|, k requires 0 <= k < |paths| => Remap(paths[k], IdPairs(Legacy(h, paths[k]), users)))
  }

  function Plan(h: Host, paths: seq<string>): seq<Txn> {
    if h.done then []
    else
      Inserts(FirstSeen(AllLegacy(h, paths), h.users.Keys))
      + Remaps(h, paths, MergedUsers(h, paths)) + [MarkDone]
  }

  function Migrated(h: Host, paths: seq<string>, listed: seq<Column>): Host {
    ApplyAll(h, Plan(h, paths), listed)
  }

  // ----- transactions that violate a key

  predicate Distinct(values: seq<Ref>) {
    forall i, j :: 0 <= i < j < |values| ==> values[i] != values[j]
  }

  /** No key column of the dashboard holds a value twice. */
  predicate KeysDistinct(d: Dashboard) {
    forall c :: c in d.refs && IsKey(c) ==> Distinct(d.refs[c])
  }

  /** Remapping leaves every listed key column without duplicates. */
  predicate Fits(d: Dashboard, pairs: seq<Pair>, listed: seq<Column>) {
    forall c :: c in d.refs && c in listed && IsKey(c) ==> Distinct(RewriteAll(pairs, d.refs[c]))
  }

  /** The transaction violates no key: a new user's id is not held under another name. */
  predicate Commits(h: Host, t: Txn, listed: seq<Column>) {
    match t
    case InsertUser(u) => u.username in h.users || forall k :: k in h.users ==> h.users[k].id != u.id
    case Remap(path, pairs) => path in h.dashboards ==> Fits(h.dashboards[path], pairs, listed)
    case MarkDone => true
  }

  /** A run stops at the first transaction that violates a key, and leaves what was committed before. */
  function Run(h: Host, ts: seq<Txn>, listed: seq<Column>): (Host, bool)
    decreases |ts|
  {
    if ts == [] then (h, true)
    else if !Commits(h, ts[0], listed) then (h, false)
    else Run(ApplyOne(h, ts[0], listed), ts[1..], listed)
  }

  /** No new user's id is that of a user there or of another new user. */
  predicate IdsFree(users: map<string, User>, rows: seq<User>) {
    && (forall i, k :: 0 <= i < |rows| && k in users ==> users[k].id != rows[i].id)
    && (forall i, j :: 0 <= i < j < |rows| ==> rows[i].id != rows[j].id)
  }

  predicate AllFit(h: Host, paths: seq<string>, users: map<string, User>, listed: seq<Column>) {
    forall i :: 0 <= i < |paths| && paths[i] in h.dashboards ==>
      Fits(h.dashboards[paths[i]], IdPairs(Legacy(h, paths[i]), users), listed)
  }

  /** What a caller can check before a migration: no new id is taken, and no dashboard's key column would hold
      one id twice. */
  predicate Completes(h: Host, paths: seq<string>, listed: seq<Column>) {
    h.done
    || (IdsFree(h.users, FirstSeen(AllLegacy(h, paths), h.users.Keys)) && AllFit(h, paths, MergedUsers(h, paths), listed))
  }

  // ----- hypothesis: one id never names two usernames

  ghost predicate Names(h: Host, paths: seq<string>, id: string, name: string) {
    || (name in h.users && h.users[name].id == id)
    || exists row :: row in AllLegacy(h, paths) && row.id == id && row.username == name
  }

  ghost predicate OneIdOneName(h: Host, paths: seq<string>) {
    forall id, a, b :: Names(h, paths, id, a) && Names(h, paths, id, b) ==> a == b
  }

  predicate ValidPaths(h: Host, paths: seq<string>) {
    && (forall i :: 0 <= i < |paths| ==> paths[i] in h.dashboards)
    && (forall i, j :: 0 <= i < j < |paths| ==> paths[i] != paths[j])
  }

  // ----- merged users

  /** k was inserted from one of the rows. */
  ghost predicate InsertedFrom(rows: seq<User>, k: string, u: User) {
    exists i :: 0 <= i < |rows| && rows[i].username == k && u == Stored(rows[i])
  }

  lemma {:induction false} InsertAllAt(users: map<string, User>, rows: seq<User>, k: string)
    ensures var after := InsertAll(users, rows);
            && (k in users ==> k in after && after[k] == users[k])
            && (k in after && k !in users ==> InsertedFrom(rows, k, after[k]))
    decreases |rows|
  {
    if rows != [] {
      var next := InsertOne(users, rows[0]);
      var after := InsertAll(users, rows);
      InsertAllAt(next, rows[1..], k);
      if k in after && k !in users {
        if k in next {
          assert rows[0].username == k && after[k] == Stored(rows[0]);
        } else {
          var i :| 0 <= i < |rows| - 1 && rows[1..][i].username == k && after[k] == Stored(rows[1..][i]);
          assert rows[i + 1].username == k && after[k] == Stored(rows[i + 1]);
        }
      }
    }
  }

  lemma {:induction false} FirstSeenCovers(rows: seq<User>, known: set<string>)
    ensures forall row :: row in rows && !IsBlank(row.username) ==>
              row.username in known + NamesOf(FirstSeen(rows, known))
  {
    if rows != [] {
      assert rows == [rows[0]] + rows[1..];
      if IsBlank(rows[0].username) || rows[0].username in known {
        FirstSeenCovers(rows[1..], known);
      } else {
        var known' := known + {rows[0].username};
        FirstSeenCovers(rows[1..], known');
        PrependName(rows[0], FirstSeen(rows[1..], known'));
      }
    }
  }

  lemma PrependName(u: User, rest: seq<User>)
    ensures NamesOf([u] + rest) == {u.username} + NamesOf(rest)
  {
    assert ([u] + rest)[1..] == rest;
  }

  lemma {:induction false} InsertAllKeys(users: map<string, User>, rows: seq<User>)
    ensures InsertAll(users, rows).Keys == users.Keys + NamesOf(rows)
    decreases |rows|
  {
    if rows != [] { InsertAllKeys(InsertOne(users, rows[0]), rows[1..]); }
  }

  /** After merging, every user that existed is unchanged and every legacy name that is not blank is a
      user; the id of each user was given to that name before. */
  lemma MergedUsersNamed(h: Host, paths: seq<string>)
    ensures var users := MergedUsers(h, paths);
            && (forall k :: k in h.users ==> k in users && users[k] == h.users[k])
            && (forall k :: k in users ==> Names(h, paths, users[k].id, k))
            && (forall row :: row in AllLegacy(h, paths) && !IsBlank(row.username) ==> row.username in users)
  {
    var rows := AllLegacy(h, paths);
    var first := FirstSeen(rows, h.users.Keys);
    InsertAllKeys(h.users, first);
    FirstSeenCovers(rows, h.users.Keys);
    FirstSeenFrom(rows, h.users.Keys);
    var users := MergedUsers(h, paths);
    forall k ensures k in h.users ==> k in users && users[k] == h.users[k] { InsertAllAt(h.users, first, k); }
    forall k | k in users ensures Names(h, paths, users[k].id, k) {
      InsertAllAt(h.users, first, k);
      if k !in h.users {
        var i :| 0 <= i < |first| && first[i].username == k && users[k] == Stored(first[i]);
        assert first[i] in rows;
      }
    }
  }

  function FirstNamed(rows: seq<User>, name: string): Option<User> {
    if rows == [] then None else if rows[0].username == name then Some(rows[0]) else FirstNamed(rows[1..], name)
  }

  lemma {:induction false} FirstSeenIsFirstNamed(rows: seq<User>, known: set<string>, i: nat)
    requires i < |FirstSeen(rows, known)|
    ensures FirstNamed(rows, FirstSeen(rows, known)[i].username) == Some(FirstSeen(rows, known)[i])
  {
    var name := FirstSeen(rows, known)[i].username;
    if IsBlank(rows[0].username) || rows[0].username in known {
      FirstSeenIsFirstNamed(rows[1..], known, i);
      FirstSeenFrom(rows[1..], known);
    } else if i > 0 {
      FirstSeenIsFirstNamed(rows[1..], known + {rows[0].username}, i - 1);
      FirstSeenFrom(rows[1..], known + {rows[0].username});
    }
  }

  /** The user is that row, except that administrators may always write. */
  ghost predicate IsMerged(user: User, row: User) {
    && user.id == row.id && user.username == row.username && user.role == row.role
    && (user.canWrite <==> row.canWrite || row.role == "admin")
    && user.passwordHash == row.passwordHash && user.tokenVersion == row.tokenVersion
    && user.createdAt == row.createdAt && user.lastLoginAt == row.lastLoginAt
    && user.lastSettingsVisitAt == row.lastSettingsVisitAt
  }

  /** First one wins: a merged user is the identity store's own, or else the first legacy row of that
      name in path order, with write access for administrators. */
  lemma FirstOneWins(h: Host, paths: seq<string>, name: string)
    requires name in MergedUsers(h, paths)
    ensures if name in h.users then MergedUsers(h, paths)[name] == h.users[name]
            else var row := FirstNamed(AllLegacy(h, paths), name);
                 row.Some? && row.value.username == name && IsMerged(MergedUsers(h, paths)[name], row.value)
  {
    var first := FirstSeen(AllLegacy(h, paths), h.users.Keys);
    InsertAllAt(h.users, first, name);
    if name !in h.users {
      var i :| 0 <= i < |first| && first[i].username == name && MergedUsers(h, paths)[name] == Stored(first[i]);
      FirstSeenIsFirstNamed(AllLegacy(h, paths), h.users.Keys, i);
    }
  }

  // ----- id maps

  lemma {:induction false} DictSetAt(pairs: seq<Pair>, p: Pair)
    requires DistinctOlds(pairs)
    ensures var r := DictSet(pairs, p);
            && DistinctOlds(r) && p in r
            && (forall q :: q in r ==> q == p || (q in pairs && q.old_ != p.old_))
            && (forall q :: q in pairs && q.old_ != p.old_ ==> q in r)
  {
    if pairs != [] && pairs[0].old_ != p.old_ {
      DictSetAt(pairs[1..], p);
      var rest := DictSet(pairs[1..], p);
      forall j | 0 <= j < |rest| ensures rest[j].old_ != pairs[0].old_ {
        assert rest[j] in rest;
      }
    }
  }

  /** p maps the id of one of the rows to the id of the merged user of the same name. */
  ghost predicate FromRow(rows: seq<User>, users: map<string, User>, p: Pair) {
    exists row :: row in rows && row.username in users && p == Pair(row.id, users[row.username].id)
  }

  ghost predicate Maps(pairs: seq<Pair>, id: string) {
    exists p :: p in pairs && p.old_ == id
  }

  /** Every pair of an id map comes from a row of a merged user, and every such row's id is mapped. */
  lemma {:induction false} IdPairsFromRows(rows: seq<User>, users: map<string, User>)
    ensures var pairs := IdPairs(rows, users);
            && DistinctOlds(pairs)
            && (forall p :: p in pairs ==> FromRow(rows, users, p))
            && (forall row :: row in rows && row.username in users ==> Maps(pairs, row.id))
  {
    if rows != [] {
      var before, last := rows[..|rows| - 1], rows[|rows| - 1];
      IdPairsFromRows(before, users);
      assert rows == before + [last];
      var old_ := IdPairs(before, users);
      assert forall p :: FromRow(before, users, p) ==> FromRow(rows, users, p);
      if last.username in users {
        var p := Pair(last.id, users[last.username].id);
        DictSetAt(old_, p);
        assert FromRow(rows, users, p);
        forall id | Maps(old_, id) ensures Maps(DictSet(old_, p), id) {
          var q :| q in old_ && q.old_ == id;
          assert if id == p.old_ then p in DictSet(old_, p) else q in DictSet(old_, p);
        }
      }
    }
  }

  lemma {:induction false} LegacyIsRead(h: Host, paths: seq<string>, i: nat)
    requires i < |paths|
    ensures forall row :: row in Legacy(h, paths[i]) ==> row in AllLegacy(h, paths)
  {
    if i < |paths| - 1 { LegacyIsRead(h, paths[..|paths| - 1], i); }
  }

  /** The ids of merged users and of legacy rows name at most one username each. */
  lemma SameIdSameName(h: Host, paths: seq<string>, i: nat, name: string, row: User)
    requires OneIdOneName(h, paths) && i < |paths| && name in MergedUsers(h, paths)
    requires row in Legacy(h, paths[i]) && row.id == MergedUsers(h, paths)[name].id
    ensures row.username == name
  {
    MergedUsersNamed(h, paths);
    LegacyIsRead(h, paths, i);
    assert Names(h, paths, row.id, row.username);
  }

  /** The hypothesis settles every id map's targets, so rewriting is substitution. */
  lemma IdPairsSettled(h: Host, paths: seq<string>, i: nat)
    requires OneIdOneName(h, paths) && i < |paths|
    ensures var pairs := IdPairs(Legacy(h, paths[i]), MergedUsers(h, paths));
            DistinctOlds(pairs) && TargetsSettled(pairs)
  {
    var users := MergedUsers(h, paths);
    var rows := Legacy(h, paths[i]);
    var pairs := IdPairs(rows, users);
    IdPairsFromRows(rows, users);
    forall a, b | 0 <= a < |pairs| && 0 <= b < |pairs| && pairs[a].new_ == pairs[b].old_
      ensures pairs[b].new_ == pairs[b].old_
    {
      SettledPair(h, paths, i, pairs[a], pairs[b]);
    }
  }

  lemma SettledPair(h: Host, paths: seq<string>, i: nat, p: Pair, q: Pair)
    requires OneIdOneName(h, paths) && i < |paths|
    requires p in IdPairs(Legacy(h, paths[i]), MergedUsers(h, paths))
    requires q in IdPairs(Legacy(h, paths[i]), MergedUsers(h, paths))
    requires p.new_ == q.old_
    ensures q.new_ == q.old_
  {
    var users := MergedUsers(h, paths);
    var rows := Legacy(h, paths[i]);
    IdPairsFromRows(rows, users);
    var rp :| rp in rows && rp.username in users && p == Pair(rp.id, users[rp.username].id);
    var rq :| rq in rows && rq.username in users && q == Pair(rq.id, users[rq.username].id);
    SameIdSameName(h, paths, i, rp.username, rq);
  }

  /** A reference to the id of a named legacy user is substituted by the merged user's id; a reference
      to any other id stays as it is. */
  lemma PairsResolve(h: Host, paths: seq<string>, i: nat, r: Ref)
    requires OneIdOneName(h, paths) && i < |paths|
    ensures var users := MergedUsers(h, paths);
            var pairs := IdPairs(Legacy(h, paths[i]), users);
            && (forall row :: row in Legacy(h, paths[i]) && row.username in users && r == Some(row.id) ==>
                  Rewrite(pairs, r) == Some(users[row.username].id))
            && ((forall row :: row in Legacy(h, paths[i]) && row.username in users ==> r != Some(row.id)) ==>
                  Rewrite(pairs, r) == r)
  {
    var users := MergedUsers(h, paths);
    var rows := Legacy(h, paths[i]);
    var pairs := IdPairs(rows, users);
    IdPairsSettled(h, paths, i);
    IdPairsFromRows(rows, users);
    LegacyIsRead(h, paths, i);
    SettledRewriteIsIdempotent(pairs, r);
    forall row | row in rows && row.username in users && r == Some(row.id)
      ensures Rewrite(pairs, r) == Some(users[row.username].id)
    {
      var p :| p in pairs && p.old_ == row.id;
      var j :| 0 <= j < |pairs| && pairs[j] == p;
      SubstituteNamed(pairs, j);
      var row' :| row' in rows && row'.username in users && p == Pair(row'.id, users[row'.username].id);
      assert Names(h, paths, row.id, row.username) && Names(h, paths, row.id, row'.username);
    }
    if forall row :: row in rows && row.username in users ==> r != Some(row.id) {
      forall j | 0 <= j < |pairs| ensures r != Some(pairs[j].old_) { assert pairs[j] in pairs; }
      SubstituteUnnamed(pairs, r);
    }
  }

  // ----- what the transactions leave

  lemma {:induction false} ApplyAllSplit(h: Host, a: seq<Txn>, b: seq<Txn>, listed: seq<Column>)
    ensures ApplyAll(h, a + b, listed) == ApplyAll(ApplyAll(h, a, listed), b, listed)
    decreases |a|
  {
    if a == [] {
      assert a + b == b;
    } else {
      assert (a + b)[1..] == a[1..] + b;
      ApplyAllSplit(ApplyOne(h, a[0], listed), a[1..], b, listed);
    }
  }

  lemma {:induction false} InsertsLeave(h: Host, rows: seq<User>, listed: seq<Column>)
    ensures ApplyAll(h, Inserts(rows), listed) == h.(users := InsertAll(h.users, rows))
    decreases |rows|
  {
    if rows != [] {
      assert Inserts(rows)[1..] == Inserts(rows[1..]);
      InsertsLeave(h.(users := InsertOne(h.users, rows[0])), rows[1..], listed);
    }
  }

  /** The dashboards after remapping the given paths. */
  function RemappedPaths(h: Host, paths: seq<string>, users: map<string, User>, listed: seq<Column>)
      : map<string, Dashboard>
  {
    map p | p in h.dashboards ::
      if p in paths then Remapped(h.dashboards[p], IdPairs(Legacy(h, p), users), listed) else h.dashboards[p]
  }

  lemma RemapOneMore(h: Host, from: Host, before: seq<string>, path: string, users: map<string, User>,
                     listed: seq<Column>)
    requires SameLegacy(h, from) && path in h.dashboards && path !in before
    ensures from.(dashboards := RemappedPaths(from, before + [path], users, listed))
         == ApplyOne(from.(dashboards := RemappedPaths(from, before, users, listed)),
                     Remap(path, IdPairs(Legacy(h, path), users)), listed)
  {
    var mid := from.(dashboards := RemappedPaths(from, before, users, listed));
    assert mid.dashboards[path] == from.dashboards[path];
    assert Legacy(h, path) == Legacy(from, path);
    assert ApplyOne(mid, Remap(path, IdPairs(Legacy(h, path), users)), listed).dashboards
        == RemappedPaths(from, before + [path], users, listed);
  }

  /** Remapping all paths, starting from any state with the same legacy users. */
  lemma {:induction false} RemapsLeave(h: Host, from: Host, paths: seq<string>, users: map<string, User>,
                                       listed: seq<Column>)
    requires SameLegacy(h, from) && ValidPaths(h, paths)
    ensures ApplyAll(from, Remaps(h, paths, users), listed)
         == from.(dashboards := RemappedPaths(from, paths, users, listed))
  {
    if paths == [] {
      assert RemappedPaths(from, paths, users, listed) == from.dashboards;
    } else {
      var before, path := paths[..|paths| - 1], paths[|paths| - 1];
      var last := Remap(path, IdPairs(Legacy(h, path), users));
      RemapsLeave(h, from, before, users, listed);
      RemapsAppend(h, before, path, users);
      assert paths == before + [path];
      ApplyAllSplit(from, Remaps(h, before, users), [last], listed);
      ApplySingle(from.(dashboards := RemappedPaths(from, before, users, listed)), last, listed);
      RemapOneMore(h, from, before, path, users, listed);
    }
  }

  lemma RemapsAppend(h: Host, before: seq<string>, path: string, users: map<string, User>)
    ensures Remaps(h, before + [path], users)
         == Remaps(h, before, users) + [Remap(path, IdPairs(Legacy(h, path), users))]
  {}

  lemma ApplySingle(h: Host, t: Txn, listed: seq<Column>)
    ensures ApplyAll(h, [t], listed) == ApplyOne(h, t, listed)
  {
    assert [t][1..] == [];
  }

  predicate SameLegacy(a: Host, b: Host) {
    a.dashboards.Keys == b.dashboards.Keys
    && forall p :: p in a.dashboards ==> a.dashboards[p].legacyUsers == b.dashboards[p].legacyUsers
  }

  lemma {:induction false} SameLegacyReads(a: Host, b: Host, paths: seq<string>)
    requires SameLegacy(a, b)
    ensures AllLegacy(a, paths) == AllLegacy(b, paths)
  {
    if paths != [] { SameLegacyReads(a, b, paths[..|paths| - 1]); }
  }

  /** The state after all inserts and the first j remaps. */
  function StoppedState(h: Host, paths: seq<string>, listed: seq<Column>, j: nat): Host
    requires j <= |paths|
  {
    Host(MergedUsers(h, paths), h.done, RemappedPaths(h, paths[..j], MergedUsers(h, paths), listed))
  }

  lemma RemappedIgnoresUsers(h: Host, users: map<string, User>, paths: seq<string>, merged: map<string, User>,
                             listed: seq<Column>)
    ensures RemappedPaths(h.(users := users), paths, merged, listed) == RemappedPaths(h, paths, merged, listed)
  {}

  lemma AfterRemaps(h: Host, paths: seq<string>, listed: seq<Column>, first: seq<User>, users: map<string, User>,
                    j: nat, ts: seq<Txn>)
    requires ValidPaths(h, paths) && j <= |paths| && users == InsertAll(h.users, first)
    requires ts == Inserts(first) + Remaps(h, paths[..j], users)
    ensures ApplyAll(h, ts, listed)
         == Host(users, h.done, RemappedPaths(h, paths[..j], users, listed))
  {
    ApplyAllSplit(h, Inserts(first), Remaps(h, paths[..j], users), listed);
    InsertsLeave(h, first, listed);
    RemapsLeave(h, h.(users := users), paths[..j], users, listed);
    RemappedIgnoresUsers(h, users, paths[..j], users, listed);
  }

  /** The state a complete run leaves. */
  lemma MigratedIs(h: Host, paths: seq<string>, listed: seq<Column>)
    requires !h.done && ValidPaths(h, paths)
    ensures Migrated(h, paths, listed)
         == Host(MergedUsers(h, paths), true, RemappedPaths(h, paths, MergedUsers(h, paths), listed))
  {
    var first := FirstSeen(AllLegacy(h, paths), h.users.Keys);
    var users := MergedUsers(h, paths);
    assert paths[..|paths|] == paths;
    var ts := Inserts(first) + Remaps(h, paths, users);
    AfterRemaps(h, paths, listed, first, users, |paths|, ts);
    ApplyAllSplit(h, ts, [MarkDone], listed);
    ApplySingle(Host(users, h.done, RemappedPaths(h, paths, users, listed)), MarkDone, listed);
  }

  // ----- when a run completes

  lemma {:induction false} RunSplit(h: Host, a: seq<Txn>, b: seq<Txn>, listed: seq<Column>)
    ensures Run(h, a, listed).1 ==>
              && Run(h, a, listed).0 == ApplyAll(h, a, listed)
              && Run(h, a + b, listed) == Run(ApplyAll(h, a, listed), b, listed)
    ensures !Run(h, a, listed).1 ==> Run(h, a + b, listed) == Run(h, a, listed)
    decreases |a|
  {
    if a == [] {
      assert a + b == b;
    } else {
      assert (a + b)[1..] == a[1..] + b;
      if Commits(h, a[0], listed) { RunSplit(ApplyOne(h, a[0], listed), a[1..], b, listed); }
    }
  }

  ghost predicate NamesNew(known: set<string>, rows: seq<User>) {
    && (forall i :: 0 <= i < |rows| ==> rows[i].username !in known)
    && (forall i, j :: 0 <= i < j < |rows| ==> rows[i].username != rows[j].username)
  }

  lemma NamesNewNext(known: set<string>, u: User, rest: seq<User>)
    requires u.username !in known && NamesNew(known + {u.username}, rest)
    ensures NamesNew(known, [u] + rest)
  {
    var rows := [u] + rest;
    forall i | 0 <= i < |rows| ensures rows[i].username !in known { if i > 0 { assert rows[i] == rest[i - 1]; } }
    forall i, j | 0 <= i < j < |rows| ensures rows[i].username != rows[j].username {
      assert rows[j] == rest[j - 1];
      if i > 0 { assert rows[i] == rest[i - 1]; }
    }
  }

  lemma {:induction false} FirstSeenNamesNew(rows: seq<User>, known: set<string>)
    ensures NamesNew(known, FirstSeen(rows, known))
  {
    if rows != [] {
      if IsBlank(rows[0].username) || rows[0].username in known {
        FirstSeenNamesNew(rows[1..], known);
      } else {
        FirstSeenNamesNew(rows[1..], known + {rows[0].username});
        NamesNewNext(known, rows[0], FirstSeen(rows[1..], known + {rows[0].username}));
      }
    }
  }

  /** Inserting users of new and distinct names goes through exactly when their ids are free. */
  lemma {:induction false} InsertsRunIff(h: Host, rows: seq<User>, listed: seq<Column>)
    requires NamesNew(h.users.Keys, rows)
    ensures Run(h, Inserts(rows), listed).1 <==> IdsFree(h.users, rows)
    decreases |rows|
  {
    if rows != [] {
      var u, rest := rows[0], rows[1..];
      assert Inserts(rows)[1..] == Inserts(rest);
      var next := h.(users := InsertOne(h.users, u));
      InsertsRunIff(next, rest, listed);
      IdsFreeNext(h.users, u, rest);
      assert [u] + rest == rows;
    }
  }

  lemma IdsFreeNext(users: map<string, User>, u: User, rest: seq<User>)
    requires u.username !in users
    ensures IdsFree(users, [u] + rest) <==>
              (forall k :: k in users ==> users[k].id != u.id) && IdsFree(InsertOne(users, u), rest)
  {
    var rows, next := [u] + rest, InsertOne(users, u);
    if IdsFree(users, rows) {
      forall k | k in users ensures users[k].id != u.id { assert rows[0] == u; }
      forall i, k | 0 <= i < |rest| && k in next ensures next[k].id != rest[i].id {
        assert rows[i + 1] == rest[i] && rows[0] == u;
      }
      forall i, j | 0 <= i < j < |rest| ensures rest[i].id != rest[j].id {
        assert rows[i + 1] == rest[i] && rows[j + 1] == rest[j];
      }
    }
    if (forall k :: k in users ==> users[k].id != u.id) && IdsFree(next, rest) {
      assert next[u.username].id == u.id;
      forall i, k | 0 <= i < |rows| && k in users ensures users[k].id != rows[i].id {
        assert next[k] == users[k];
        if i > 0 { assert rows[i] == rest[i - 1]; }
      }
      forall i, j | 0 <= i < j < |rows| ensures rows[i].id != rows[j].id {
        assert rows[j] == rest[j - 1];
        if i > 0 { assert rows[i] == rest[i - 1]; }
      }
    }
  }

  lemma RemapCommitsIff(h: Host, from: Host, before: seq<string>, path: string, users: map<string, User>,
                        listed: seq<Column>)
    requires SameLegacy(h, from) && path in h.dashboards && path !in before
    ensures Commits(from.(dashboards := RemappedPaths(from, before, users, listed)),
                    Remap(path, IdPairs(Legacy(h, path), users)), listed)
       <==> Fits(from.dashboards[path], IdPairs(Legacy(from, path), users), listed)
  {
    assert RemappedPaths(from, before, users, listed)[path] == from.dashboards[path];
    assert Legacy(h, path) == Legacy(from, path);
  }

  /** Remapping distinct dashboards goes through exactly when each of them fits. */
  lemma {:induction false} RemapsRunIff(h: Host, from: Host, paths: seq<string>, users: map<string, User>,
                                        listed: seq<Column>)
    requires SameLegacy(h, from) && ValidPaths(h, paths)
    ensures Run(from, Remaps(h, paths, users), listed).1 <==> AllFit(from, paths, users, listed)
  {
    if paths != [] {
      var before, path := paths[..|paths| - 1], paths[|paths| - 1];
      var last := Remap(path, IdPairs(Legacy(h, path), users));
      assert paths == before + [path];
      ValidPrefix(h, paths, |paths| - 1);
      RemapsRunIff(h, from, before, users, listed);
      RemapsAppend(h, before, path, users);
      RunSplit(from, Remaps(h, before, users), [last], listed);
      RemapsLeave(h, from, before, users, listed);
      RunSingle(from.(dashboards := RemappedPaths(from, before, users, listed)), last, listed);
      AllFitNext(from, before, path, users, listed);
      RemapCommitsIff(h, from, before, path, users, listed);
    }
  }

  lemma RunSingle(h: Host, t: Txn, listed: seq<Column>)
    ensures Run(h, [t], listed).1 <==> Commits(h, t, listed)
  {
    assert [t][1..] == [];
  }

  lemma AllFitNext(h: Host, before: seq<string>, path: string, users: map<string, User>, listed: seq<Column>)
    requires path in h.dashboards
    ensures AllFit(h, before + [path], users, listed) <==>
              && AllFit(h, before, users, listed)
              && Fits(h.dashboards[path], IdPairs(Legacy(h, path), users), listed)
  {
    var paths := before + [path];
    if AllFit(h, paths, users, listed) {
      forall i | 0 <= i < |before| && before[i] in h.dashboards
        ensures Fits(h.dashboards[before[i]], IdPairs(Legacy(h, before[i]), users), listed)
      {
        assert paths[i] == before[i];
      }
      assert paths[|before|] == path;
    }
  }

  /** With free ids a run comes down to its remaps. */
  lemma RunAfterInserts(h: Host, paths: seq<string>, listed: seq<Column>)
    requires !h.done
    ensures var first := FirstSeen(AllLegacy(h, paths), h.users.Keys);
            var merged := h.(users := MergedUsers(h, paths));
            if IdsFree(h.users, first)
            then Run(h, Plan(h, paths), listed) == Run(merged, Remaps(h, paths, merged.users) + [MarkDone], listed)
            else !Run(h, Plan(h, paths), listed).1
  {
    var first := FirstSeen(AllLegacy(h, paths), h.users.Keys);
    var rest := Remaps(h, paths, MergedUsers(h, paths)) + [MarkDone];
    FirstSeenNamesNew(AllLegacy(h, paths), h.users.Keys);
    InsertsRunIff(h, first, listed);
    InsertsLeave(h, first, listed);
    RunSplit(h, Inserts(first), rest, listed);
    assert Plan(h, paths) == Inserts(first) + rest;
  }

  /** A migration completes exactly when no new id is taken and every dashboard fits; it then leaves the
      migrated state. */
  lemma CompletesIff(h: Host, paths: seq<string>, listed: seq<Column>)
    requires ValidPaths(h, paths)
    ensures Run(h, Plan(h, paths), listed).1 <==> Completes(h, paths, listed)
    ensures Completes(h, paths, listed) ==> Run(h, Plan(h, paths), listed).0 == Migrated(h, paths, listed)
  {
    RunSplit(h, Plan(h, paths), [], listed);
    assert Plan(h, paths) + [] == Plan(h, paths);
    if !h.done {
      var merged := h.(users := MergedUsers(h, paths));
      RunAfterInserts(h, paths, listed);
      RemapsRunIff(h, merged, paths, merged.users, listed);
      RunSplit(merged, Remaps(h, paths, merged.users), [MarkDone], listed);
      RunSingle(ApplyAll(merged, Remaps(h, paths, merged.users), listed), MarkDone, listed);
      AllFitIgnoresUsers(h, merged.users, paths, merged.users, listed);
    }
  }

  lemma AllFitIgnoresUsers(h: Host, users: map<string, User>, paths: seq<string>, merged: map<string, User>,
                           listed: seq<Column>)
    ensures AllFit(h.(users := users), paths, merged, listed) <==> AllFit(h, paths, merged, listed)
  {
    forall path ensures Legacy(h.(users := users), path) == Legacy(h, path) {}
  }

  /** If one id never names two usernames, new ids are free. */
  lemma OneNameFreesIds(h: Host, paths: seq<string>)
    requires OneIdOneName(h, paths)
    ensures IdsFree(h.users, FirstSeen(AllLegacy(h, paths), h.users.Keys))
  {
    var first := FirstSeen(AllLegacy(h, paths), h.users.Keys);
    FirstSeenNamesNew(AllLegacy(h, paths), h.users.Keys);
    FirstSeenFrom(AllLegacy(h, paths), h.users.Keys);
    forall i | 0 <= i < |first| ensures Names(h, paths, first[i].id, first[i].username) { assert first[i] in first; }
    forall i, k | 0 <= i < |first| && k in h.users ensures h.users[k].id != first[i].id {
      assert Names(h, paths, h.users[k].id, k);
    }
  }

  /** A dashboard whose key column holds both a legacy user's id and the different id of the merged user of that
      name stops every migration, though no id names two users and no key is held twice. */
  lemma KeyCollisionStops(h: Host, paths: seq<string>, listed: seq<Column>, i: nat, c: Column, row: User)
    requires !h.done && ValidPaths(h, paths) && OneIdOneName(h, paths) && i < |paths|
    requires row in Legacy(h, paths[i]) && row.username in MergedUsers(h, paths)
    requires var id := MergedUsers(h, paths)[row.username].id;
             && id != row.id && c in listed && IsKey(c) && c in h.dashboards[paths[i]].refs
             && Some(id) in h.dashboards[paths[i]].refs[c] && Some(row.id) in h.dashboards[paths[i]].refs[c]
    ensures !Run(h, Plan(h, paths), listed).1
  {
    var users, values := MergedUsers(h, paths), h.dashboards[paths[i]].refs[c];
    var pairs, id := IdPairs(Legacy(h, paths[i]), users), users[row.username].id;
    PairsResolve(h, paths, i, Some(row.id));
    IdPairsSettled(h, paths, i);
    SettledRewriteIsIdempotent(pairs, Some(row.id));
    assert Rewrite(pairs, Some(row.id)) == Some(id) == Rewrite(pairs, Some(id));
    var a :| 0 <= a < |values| && values[a] == Some(row.id);
    var b :| 0 <= b < |values| && values[b] == Some(id);
    assert RewriteAll(pairs, values)[a] == RewriteAll(pairs, values)[b] && a != b;
    CompletesIff(h, paths, listed);
  }

  /** Such a host: the identity store knows bob, a dashboard knows him under another id, and holds preferences
      of both. */
  lemma BobStopsMigration(path: string, bob: User, other: string)
    requires bob.username == "bob" && bob.id == "A1" && other == "A2"
    ensures var c := ("user_preferences", "user_id");
            var d := Dashboard([bob.(id := other)], map[c := [Some("A1"), Some("A2")]]);
            var h := Host(map["bob" := bob], false, map[path := d]);
            && OneIdOneName(h, [path]) && KeysDistinct(d)
            && !Run(h, Plan(h, [path]), USER_REFERENCE_COLUMNS).1
  {
    var c := ("user_preferences", "user_id");
    var row := bob.(id := other);
    var d := Dashboard([row], map[c := [Some("A1"), Some("A2")]]);
    var h := Host(map["bob" := bob], false, map[path := d]);
    BobIsRead(h, path, row);
    MergedUsersNamed(h, [path]);
    assert USER_REFERENCE_COLUMNS[8] == c;
    KeyCollisionStops(h, [path], USER_REFERENCE_COLUMNS, 0, c, row);
  }

  lemma BobIsRead(h: Host, path: string, row: User)
    requires row.username == "bob" && row.id != ""
    requires h.dashboards.Keys == {path} && h.dashboards[path].legacyUsers == [row]
    ensures Legacy(h, path) == [row] && AllLegacy(h, [path]) == [row]
  {
    assert !IsSpace('b');
    assert Strip("bob") == "bob" by {
      assert StripLeft("bob") == "bob" && StripRight("bob") == "bob";
    }
    assert Readable([row][..0]) == [];
    assert Readable([row]) == [] + [Normalized(row)];
    assert [path][..0] == [] && AllLegacy(h, []) == [];
  }

  /** After a run that completes, every listed reference that named legacy user u resolves to the identity store's
      user named u; every other reference and every unlisted column is as before. */
  lemma ReferencesResolve(h: Host, paths: seq<string>, listed: seq<Column>, i: nat, c: Column, k: nat)
    requires !h.done && ValidPaths(h, paths) && OneIdOneName(h, paths) && Completes(h, paths, listed)
    requires i < |paths| && c in h.dashboards[paths[i]].refs && k < |h.dashboards[paths[i]].refs[c]|
    ensures var after := Run(h, Plan(h, paths), listed).0;
            var was := h.dashboards[paths[i]].refs[c][k];
            && paths[i] in after.dashboards && c in after.dashboards[paths[i]].refs
            && |after.dashboards[paths[i]].refs[c]| == |h.dashboards[paths[i]].refs[c]|
            && var now := after.dashboards[paths[i]].refs[c][k];
               && (forall row :: row in Legacy(h, paths[i]) && !IsBlank(row.username) && was == Some(row.id)
                                 && c in listed ==>
                     row.username in after.users && now == Some(after.users[row.username].id))
               && ((forall row :: row in Legacy(h, paths[i]) ==> was != Some(row.id)) || c !in listed ==> now == was)
  {
    CompletesIff(h, paths, listed);
    MigratedIs(h, paths, listed);
    MergedUsersNamed(h, paths);
    LegacyIsRead(h, paths, i);
    PairsResolve(h, paths, i, h.dashboards[paths[i]].refs[c][k]);
  }

  // ----- restart safety

  lemma {:induction false} FirstSeenResumes(rows: seq<User>, known: set<string>, k: nat)
    requires k <= |FirstSeen(rows, known)|
    ensures FirstSeen(rows, known + NamesOf(FirstSeen(rows, known)[..k])) == FirstSeen(rows, known)[k..]
  {
    var first := FirstSeen(rows, known);
    if k == 0 {
      assert known + NamesOf(first[..0]) == known;
    } else if IsBlank(rows[0].username) || rows[0].username in known {
      FirstSeenResumes(rows[1..], known, k);
    } else {
      var known' := known + {rows[0].username};
      var rest := FirstSeen(rows[1..], known');
      FirstSeenResumes(rows[1..], known', k - 1);
      assert first == [rows[0]] + rest;
      assert first[..k] == [rows[0]] + rest[..k - 1] && first[k..] == rest[k - 1..];
      PrependName(rows[0], rest[..k - 1]);
      assert known + NamesOf(first[..k]) == known' + NamesOf(rest[..k - 1]);
    }
  }

  lemma {:induction false} InsertAllSplit(users: map<string, User>, a: seq<User>, b: seq<User>)
    ensures InsertAll(users, a + b) == InsertAll(InsertAll(users, a), b)
    decreases |a|
  {
    if a == [] {
      assert a + b == b;
    } else {
      assert (a + b)[1..] == a[1..] + b;
      InsertAllSplit(InsertOne(users, a[0]), a[1..], b);
    }
  }

  /** A run stopped after k inserts resumes with the remaining ones and the same id maps. */
  lemma StoppedAmongInserts(h: Host, paths: seq<string>, listed: seq<Column>, k: nat)
    requires !h.done && k <= |FirstSeen(AllLegacy(h, paths), h.users.Keys)|
    ensures var stopped := ApplyAll(h, Plan(h, paths)[..k], listed);
            && !stopped.done && SameLegacy(h, stopped) && stopped.dashboards == h.dashboards
            && MergedUsers(stopped, paths) == MergedUsers(h, paths)
  {
    var rows := AllLegacy(h, paths);
    var first := FirstSeen(rows, h.users.Keys);
    assert Plan(h, paths)[..k] == Inserts(first[..k]);
    InsertsLeave(h, first[..k], listed);
    var stopped := h.(users := InsertAll(h.users, first[..k]));
    InsertAllKeys(h.users, first[..k]);
    FirstSeenResumes(rows, h.users.Keys, k);
    SameLegacyReads(h, stopped, paths);
    assert first[..k] + first[k..] == first;
    InsertAllSplit(h.users, first[..k], first[k..]);
  }

  lemma RemappedTwice(d: Dashboard, pairs: seq<Pair>, listed: seq<Column>)
    requires DistinctOlds(pairs) && TargetsSettled(pairs)
    ensures Remapped(Remapped(d, pairs, listed), pairs, listed) == Remapped(d, pairs, listed)
  {
    var once := Remapped(d, pairs, listed);
    forall c | c in d.refs && c in listed ensures RewriteAll(pairs, once.refs[c]) == once.refs[c] {
      forall k | 0 <= k < |d.refs[c]| ensures Rewrite(pairs, once.refs[c][k]) == once.refs[c][k] {
        SettledRewriteIsIdempotent(pairs, d.refs[c][k]);
      }
    }
    assert Remapped(once, pairs, listed).refs == once.refs;
  }

  lemma {:induction false} AllSeenNothingNew(rows: seq<User>, known: set<string>)
    requires forall row :: row in rows && !IsBlank(row.username) ==> row.username in known
    ensures FirstSeen(rows, known) == []
  {
    if rows != [] { AllSeenNothingNew(rows[1..], known); }
  }

  lemma TakeIntoSecond<T>(a: seq<T>, b: seq<T>, c: seq<T>, j: nat)
    requires j <= |b|
    ensures (a + b + c)[..|a| + j] == a + b[..j]
  {}

  lemma PlanPrefix(h: Host, paths: seq<string>, j: nat)
    requires !h.done && j <= |paths|
    ensures var first := FirstSeen(AllLegacy(h, paths), h.users.Keys);
            && |Plan(h, paths)| == |first| + |paths| + 1
            && Plan(h, paths)[..|first| + j] == Inserts(first) + Remaps(h, paths[..j], MergedUsers(h, paths))
  {
    var first := FirstSeen(AllLegacy(h, paths), h.users.Keys);
    var users := MergedUsers(h, paths);
    assert Remaps(h, paths[..j], users) == Remaps(h, paths, users)[..j];
    TakeIntoSecond(Inserts(first), Remaps(h, paths, users), [MarkDone], j);
  }

  lemma PrefixOfPlan(h: Host, paths: seq<string>, listed: seq<Column>, ts: seq<Txn>, j: nat)
    requires !h.done && ValidPaths(h, paths) && j <= |paths|
    requires ts == Inserts(FirstSeen(AllLegacy(h, paths), h.users.Keys))
                   + Remaps(h, paths[..j], MergedUsers(h, paths))
    ensures ApplyAll(h, ts, listed) == StoppedState(h, paths, listed, j)
  {
    AfterRemaps(h, paths, listed, FirstSeen(AllLegacy(h, paths), h.users.Keys), MergedUsers(h, paths), j, ts);
  }

  lemma {:induction false} RunIdle(h: Host, ts: seq<Txn>, listed: seq<Column>)
    requires forall t :: t in ts ==> Commits(h, t, listed) && ApplyOne(h, t, listed) == h
    ensures Run(h, ts, listed) == (h, true)
    decreases |ts|
  {
    if ts != [] { RunIdle(h, ts[1..], listed); }
  }

  lemma FitsAgain(d: Dashboard, pairs: seq<Pair>, listed: seq<Column>)
    requires DistinctOlds(pairs) && TargetsSettled(pairs) && Fits(d, pairs, listed)
    ensures Fits(Remapped(d, pairs, listed), pairs, listed)
  {
    RemappedTwice(d, pairs, listed);
    var once, twice := Remapped(d, pairs, listed), Remapped(Remapped(d, pairs, listed), pairs, listed);
    forall c | c in once.refs && c in listed && IsKey(c) ensures Distinct(RewriteAll(pairs, once.refs[c])) {
      assert twice.refs[c] == RewriteAll(pairs, once.refs[c]) && once.refs[c] == RewriteAll(pairs, d.refs[c]);
    }
  }

  /** Remapping again what was remapped before goes through and changes nothing. */
  lemma RemapIdles(h: Host, paths: seq<string>, listed: seq<Column>, j: nat, i: nat)
    requires ValidPaths(h, paths) && OneIdOneName(h, paths) && i < j <= |paths|
    requires Fits(h.dashboards[paths[i]], IdPairs(Legacy(h, paths[i]), MergedUsers(h, paths)), listed)
    ensures var s := StoppedState(h, paths, listed, j);
            var t := Remap(paths[i], IdPairs(Legacy(h, paths[i]), MergedUsers(h, paths)));
            Commits(s, t, listed) && ApplyOne(s, t, listed) == s
  {
    var pairs := IdPairs(Legacy(h, paths[i]), MergedUsers(h, paths));
    IdPairsSettled(h, paths, i);
    FitsAgain(h.dashboards[paths[i]], pairs, listed);
    RemappedTwice(h.dashboards[paths[i]], pairs, listed);
    assert paths[..j][i] == paths[i];
  }

  /** From a run stopped after j remaps, these are repeated without effect. */
  lemma RemapsRepeat(h: Host, paths: seq<string>, listed: seq<Column>, j: nat)
    requires ValidPaths(h, paths) && OneIdOneName(h, paths) && j <= |paths|
    requires AllFit(h, paths[..j], MergedUsers(h, paths), listed)
    ensures var s := StoppedState(h, paths, listed, j);
            Run(s, Remaps(h, paths[..j], MergedUsers(h, paths)), listed) == (s, true)
  {
    var s, ts := StoppedState(h, paths, listed, j), Remaps(h, paths[..j], MergedUsers(h, paths));
    forall t | t in ts ensures Commits(s, t, listed) && ApplyOne(s, t, listed) == s {
      var i :| 0 <= i < j && ts[i] == t;
      assert paths[..j][i] == paths[i];
      RemapIdles(h, paths, listed, j, i);
    }
    RunIdle(s, ts, listed);
  }

  /** If all inserts go through, so do the remaining ones after k. */
  lemma LaterIdsFree(h: Host, rows: seq<User>, listed: seq<Column>, k: nat)
    requires NamesNew(h.users.Keys, rows) && IdsFree(h.users, rows) && k <= |rows|
    requires NamesNew(InsertAll(h.users, rows[..k]).Keys, rows[k..])
    ensures IdsFree(InsertAll(h.users, rows[..k]), rows[k..])
  {
    InsertsRunIff(h, rows, listed);
    RunSplit(h, Inserts(rows[..k]), Inserts(rows[k..]), listed);
    assert Inserts(rows) == Inserts(rows[..k]) + Inserts(rows[k..]);
    InsertsLeave(h, rows[..k], listed);
    InsertsRunIff(h.(users := InsertAll(h.users, rows[..k])), rows[k..], listed);
  }

  lemma ResumedIdsFree(h: Host, paths: seq<string>, listed: seq<Column>, k: nat)
    requires OneIdOneName(h, paths) && k <= |FirstSeen(AllLegacy(h, paths), h.users.Keys)|
    ensures var rows, first := AllLegacy(h, paths), FirstSeen(AllLegacy(h, paths), h.users.Keys);
            var users := InsertAll(h.users, first[..k]);
            IdsFree(users, FirstSeen(rows, users.Keys))
  {
    var rows, first := AllLegacy(h, paths), FirstSeen(AllLegacy(h, paths), h.users.Keys);
    var users := InsertAll(h.users, first[..k]);
    OneNameFreesIds(h, paths);
    FirstSeenNamesNew(rows, h.users.Keys);
    InsertAllKeys(h.users, first[..k]);
    FirstSeenResumes(rows, h.users.Keys, k);
    FirstSeenNamesNew(rows, users.Keys);
    LaterIdsFree(h, first, listed, k);
  }

  lemma RestartAmongInserts(h: Host, paths: seq<string>, listed: seq<Column>, k: nat)
    requires !h.done && ValidPaths(h, paths) && OneIdOneName(h, paths)
    requires k <= |FirstSeen(AllLegacy(h, paths), h.users.Keys)|
    ensures var stopped := ApplyAll(h, Plan(h, paths)[..k], listed);
            Run(stopped, Plan(stopped, paths), listed) == Run(h, Plan(h, paths), listed)
  {
    var stopped := ApplyAll(h, Plan(h, paths)[..k], listed);
    StoppedAmongInserts(h, paths, listed, k);
    OneNameFreesIds(h, paths);
    PlanStartsWithInserts(h, paths, listed, k);
    SameLegacyReads(h, stopped, paths);
    ResumedIdsFree(h, paths, listed, k);
    RunAfterInserts(h, paths, listed);
    RunAfterInserts(stopped, paths, listed);
    assert Remaps(stopped, paths, MergedUsers(h, paths)) == Remaps(h, paths, MergedUsers(h, paths));
  }

  /** An uninterrupted run passes through the state of one stopped after j remaps. */
  lemma RunPassesThrough(h: Host, paths: seq<string>, listed: seq<Column>, j: nat)
    requires ValidPaths(h, paths) && j <= |paths|
    requires AllFit(h, paths[..j], MergedUsers(h, paths), listed)
    ensures var users := MergedUsers(h, paths);
            Run(h.(users := users), Remaps(h, paths[..j], users), listed) == (StoppedState(h, paths, listed, j), true)
  {
    var users := MergedUsers(h, paths);
    var merged := h.(users := users);
    ValidPrefix(h, paths, j);
    AllFitIgnoresUsers(h, users, paths[..j], users, listed);
    RemapsRunIff(h, merged, paths[..j], users, listed);
    RunSplit(merged, Remaps(h, paths[..j], users), [], listed);
    RemapsLeave(h, merged, paths[..j], users, listed);
    RemappedIgnoresUsers(h, users, paths[..j], users, listed);
  }

  lemma RemapsCut(h: Host, paths: seq<string>, users: map<string, User>, j: nat)
    requires j <= |paths|
    ensures Remaps(h, paths, users) + [MarkDone]
         == Remaps(h, paths[..j], users) + (Remaps(h, paths[j..], users) + [MarkDone])
  {}

  /** Runs that have reached the same state go on alike. */
  lemma RunsMeet(a: Host, b: Host, s: Host, first: seq<Txn>, rest: seq<Txn>, listed: seq<Column>)
    requires Run(a, first, listed) == (s, true) && Run(b, first, listed) == (s, true)
    ensures Run(a, first + rest, listed) == Run(b, first + rest, listed)
  {
    RunSplit(a, first, rest, listed);
    RunSplit(b, first, rest, listed);
  }

  lemma RestartAmongRemaps(h: Host, paths: seq<string>, listed: seq<Column>, j: nat)
    requires !h.done && ValidPaths(h, paths) && OneIdOneName(h, paths) && j <= |paths|
    requires AllFit(h, paths[..j], MergedUsers(h, paths), listed)
    ensures var stopped := StoppedState(h, paths, listed, j);
            Run(stopped, Plan(stopped, paths), listed) == Run(h, Plan(h, paths), listed)
  {
    var users, stopped := MergedUsers(h, paths), StoppedState(h, paths, listed, j);
    var repeated, rest := Remaps(h, paths[..j], users), Remaps(h, paths[j..], users) + [MarkDone];
    OneNameFreesIds(h, paths);
    RunAfterInserts(h, paths, listed);
    PlanResumes(h, paths, listed, j);
    RemapsCut(h, paths, users, j);
    RunPassesThrough(h, paths, listed, j);
    RemapsRepeat(h, paths, listed, j);
    RunsMeet(h.(users := users), stopped, stopped, repeated, rest, listed);
  }

  lemma ValidPrefix(h: Host, paths: seq<string>, j: nat)
    requires ValidPaths(h, paths) && j <= |paths|
    ensures ValidPaths(h, paths[..j])
  {}

  lemma PlanWithoutInserts(h: Host, paths: seq<string>)
    requires !h.done && FirstSeen(AllLegacy(h, paths), h.users.Keys) == []
    ensures MergedUsers(h, paths) == h.users && Plan(h, paths) == Remaps(h, paths, h.users) + [MarkDone]
  {
    assert Inserts([]) == [];
  }

  lemma RemapsAlike(a: Host, b: Host, paths: seq<string>, users: map<string, User>)
    requires SameLegacy(a, b)
    ensures Remaps(a, paths, users) == Remaps(b, paths, users)
  {
    forall path ensures Legacy(a, path) == Legacy(b, path) {}
  }

  /** The plan of a run stopped after j remaps: all remaps once more, and the mark. */
  lemma PlanResumes(h: Host, paths: seq<string>, listed: seq<Column>, j: nat)
    requires !h.done && j <= |paths|
    ensures Plan(StoppedState(h, paths, listed, j), paths) == Remaps(h, paths, MergedUsers(h, paths)) + [MarkDone]
  {
    var stopped := StoppedState(h, paths, listed, j);
    SameLegacyReads(h, stopped, paths);
    MergedUsersNamed(h, paths);
    AllSeenNothingNew(AllLegacy(h, paths), stopped.users.Keys);
    PlanWithoutInserts(stopped, paths);
    RemapsAlike(stopped, h, paths, stopped.users);
  }

  lemma RestartWhenDone(h: Host, paths: seq<string>, listed: seq<Column>)
    requires !h.done && ValidPaths(h, paths) && Run(h, Plan(h, paths), listed).1
    ensures var stopped := ApplyAll(h, Plan(h, paths), listed);
            Run(stopped, Plan(stopped, paths), listed) == Run(h, Plan(h, paths), listed)
  {
    MigratedIs(h, paths, listed);
    CompletesIff(h, paths, listed);
  }

  /** Stopping after any number of committed transactions and running again from the start ends as the
      uninterrupted run does: with the same users, references and done mark, or stopped at the same
      transaction. */
  lemma RestartReachesSameState(h: Host, paths: seq<string>, listed: seq<Column>, k: nat)
    requires !h.done && ValidPaths(h, paths) && OneIdOneName(h, paths)
    requires k <= |Plan(h, paths)| && Run(h, Plan(h, paths)[..k], listed).1
    ensures var stopped := Run(h, Plan(h, paths)[..k], listed).0;
            Run(stopped, Plan(stopped, paths), listed) == Run(h, Plan(h, paths), listed)
  {
    var inserts := |FirstSeen(AllLegacy(h, paths), h.users.Keys)|;
    var ts := Plan(h, paths)[..k];
    RunSplit(h, ts, [], listed);
    PlanPrefix(h, paths, 0);
    if k <= inserts {
      RestartAmongInserts(h, paths, listed, k);
    } else if k < |Plan(h, paths)| {
      RestartAfterPrefix(h, paths, listed, ts, k - inserts);
    } else {
      assert ts == Plan(h, paths);
      RestartWhenDone(h, paths, listed);
    }
  }

  lemma RestartAfterPrefix(h: Host, paths: seq<string>, listed: seq<Column>, ts: seq<Txn>, j: nat)
    requires !h.done && ValidPaths(h, paths) && OneIdOneName(h, paths) && j <= |paths|
    requires var n := |FirstSeen(AllLegacy(h, paths), h.users.Keys)| + j;
             n <= |Plan(h, paths)| && ts == Plan(h, paths)[..n] && Run(h, ts, listed).1
    ensures var stopped := ApplyAll(h, ts, listed);
            Run(stopped, Plan(stopped, paths), listed) == Run(h, Plan(h, paths), listed)
  {
    var first, users := FirstSeen(AllLegacy(h, paths), h.users.Keys), MergedUsers(h, paths);
    PlanPrefix(h, paths, j);
    PrefixOfPlan(h, paths, listed, ts, j);
    RunSplit(h, Inserts(first), Remaps(h, paths[..j], users), listed);
    InsertsLeave(h, first, listed);
    ValidPrefix(h, paths, j);
    RemapsRunIff(h, h.(users := users), paths[..j], users, listed);
    AllFitIgnoresUsers(h, users, paths[..j], users, listed);
    RestartAmongRemaps(h, paths, listed, j);
  }

  // ----- the migration itself

  /** Some update of the id map is actually issued against this dashboard. */
  predicate IssuesUpdates(d: Dashboard, pairs: seq<Pair>, listed: seq<Column>) {
    && (exists i :: 0 <= i < |listed| && listed[i] in d.refs)
    && exists i :: 0 <= i < |pairs| && pairs[i].old_ != pairs[i].new_
  }

  function CountUpdated(h: Host, paths: seq<string>, users: map<string, User>, listed: seq<Column>): nat {
    if paths == [] then 0
    else
      var n := |paths| - 1;
      CountUpdated(h, paths[..n], users, listed)
      + if paths[n] in h.dashboards
           && IssuesUpdates(h.dashboards[paths[n]], IdPairs(Legacy(h, paths[n]), users), listed) then 1 else 0
  }

  class IdentityHost {
    var users: map<string, User>
    var done: bool
    var dashboards: map<string, Dashboard>

    constructor (users: map<string, User>, done: bool, dashboards: map<string, Dashboard>)
      ensures State() == Host(users, done, dashboards)
    {
      this.users := users;
      this.done := done;
      this.dashboards := dashboards;
    }

    ghost function State(): Host
      reads this
    {
      Host(users, done, dashboards)
    }

    /** A known username is left alone; an id held under another name violates the primary key. */
    method InsertLegacyUser(u: User) returns (ok: bool)
      modifies this`users
      ensures ok <==> u.username in old(users) || forall k :: k in old(users) ==> old(users)[k].id != u.id
      ensures !ok || u.username in old(users) ==> users == old(users)
      ensures ok && u.username !in old(users) ==>
                && users.Keys == old(users).Keys + {u.username}
                && (forall k :: k in old(users) ==> users[k] == old(users)[k])
                && IsMerged(users[u.username], u)
      ensures users == if ok then InsertOne(old(users), u) else old(users)
    {
      if u.username in users { return true; }
      if exists k :: k in users && users[k].id == u.id { return false; }
      users := users[u.username := Stored(u)];
      return true;
    }

    /** One dashboard's transaction: column by column, pair by pair. None is the rollback when an update would
        give two rows of a key column the same id. */
    method RemapDashboardUserReferences(path: string, pairs: seq<Pair>, listed: seq<Column>)
      returns (changed: Option<bool>)
      requires path in dashboards && KeysDistinct(dashboards[path])
      requires forall i, j :: 0 <= i < j < |listed| ==> listed[i] != listed[j]
      modifies this`dashboards
      ensures changed.Some? <==> Fits(old(dashboards)[path], pairs, listed)
      ensures dashboards == if changed.Some? then old(dashboards)[path := Remapped(old(dashboards)[path], pairs, listed)]
                            else old(dashboards)
      ensures changed.Some? ==> changed.value == IssuesUpdates(old(dashboards)[path], pairs, listed)
    {
      var issued := false;
      var d := dashboards[path];
      var refs := d.refs;
      for n := 0 to |listed|
        invariant dashboards == old(dashboards) && refs.Keys == d.refs.Keys
        invariant forall c :: c in refs ==>
                    refs[c] == if c in listed[..n] then RewriteAll(pairs, d.refs[c]) else d.refs[c]
        invariant Fits(d, pairs, listed[..n])
        invariant issued <==> IssuesUpdates(d, pairs, listed[..n])
      {
        var c := listed[n];
        assert listed[..n + 1] == listed[..n] + [c];
        assert c !in listed[..n];
        if c in refs {
          var ok, values, some := UpdatePairwise(pairs, refs[c], IsKey(c));
          if !ok {
            assert c in listed;
            return None;
          }
          refs := refs[c := values];
          issued := issued || some;
        }
        IssuesGrow(d, pairs, listed, n);
      }
      assert listed[..|listed|] == listed;
      assert refs == Remapped(d, pairs, listed).refs;
      assert d.(refs := refs) == Remapped(d, pairs, listed);
      dashboards := dashboards[path := d.(refs := refs)];
      return Some(issued);
    }

    /** Runs once: merge, remap every dashboard, mark done. None is the constraint error that ends the run at a
        transaction that violates a key. */
    method Migrate(paths: seq<string>, listed: seq<Column>) returns (counts: Option<(nat, nat)>)
      requires ValidPaths(State(), paths)
      requires forall p :: p in dashboards ==> KeysDistinct(dashboards[p])
      requires forall i, j :: 0 <= i < j < |listed| ==> listed[i] != listed[j]
      modifies this
      ensures counts.Some? <==> Completes(old(State()), paths, listed)
      ensures State() == Run(old(State()), Plan(old(State()), paths), listed).0
      ensures counts.Some? ==> State() == Migrated(old(State()), paths, listed)
      ensures counts.Some? && !old(done) ==>
                && counts.value.0 == |FirstSeen(AllLegacy(old(State()), paths), old(users).Keys)|
                && counts.value.1 == CountUpdated(old(State()), paths, users, listed)
      ensures counts.Some? && old(done) ==> counts.value == (0, 0)
    {
      ghost var h := State();
      CompletesIff(h, paths, listed);
      if done { return Some((0, 0)); }
      var selected := FirstSeen(ReadAll(paths), users.Keys);
      ghost var plan := Plan(h, paths);
      ghost var remaps := Remaps(h, paths, MergedUsers(h, paths)) + [MarkDone];
      assert plan == Inserts(selected) + remaps;
      var inserted := InsertSelected(selected, remaps, listed);
      if inserted.None? { return None; }
      MergedByInserts(h, paths);
      var remapped := RemapAll(h, paths, listed);
      if remapped.None? { return None; }
      done := true;
      assert [MarkDone][1..] == [];
      counts := Some((inserted.value, remapped.value));
    }

    function ReadAll(paths: seq<string>): (rows: seq<User>)
      reads this
      ensures rows == AllLegacy(State(), paths)
    {
      AllLegacy(Host(users, done, dashboards), paths)
    }

    /** Inserts the selected users one by one; what remains of the run is what follows. */
    method InsertSelected(selected: seq<User>, ghost rest: seq<Txn>, ghost listed: seq<Column>)
        returns (inserted: Option<nat>)
      modifies this`users
      ensures inserted.Some? ==>
                && inserted.value == |selected| && users == InsertAll(old(users), selected)
                && Run(old(State()), Inserts(selected) + rest, listed) == Run(State(), rest, listed)
      ensures inserted.None? ==> Run(old(State()), Inserts(selected) + rest, listed) == (State(), false)
    {
      ghost var h := State();
      var n := 0;
      assert Inserts(selected[0..]) == Inserts(selected) && selected[..0] == [];
      while n < |selected|
        invariant 0 <= n <= |selected| && users == InsertAll(h.users, selected[..n])
        invariant Run(h, Inserts(selected) + rest, listed) == Run(State(), Inserts(selected[n..]) + rest, listed)
      {
        InsertsNext(selected, n, rest);
        var ok := InsertLegacyUser(selected[n]);
        if !ok { return None; }
        assert selected[..n + 1] == selected[..n] + [selected[n]];
        InsertAllSplit(h.users, selected[..n], [selected[n]]);
        InsertSingle(InsertAll(h.users, selected[..n]), selected[n]);
        n := n + 1;
      }
      assert selected[..n] == selected && Inserts(selected[n..]) + rest == rest;
      return Some(n);
    }

    /** The remap of dashboard number n, after those before it. */
    method RemapPath(ghost h: Host, paths: seq<string>, n: nat, listed: seq<Column>) returns (changed: Option<bool>)
      requires ValidPaths(h, paths) && n < |paths| && dashboards == RemappedPaths(h, paths[..n], users, listed)
      requires KeysDistinct(h.dashboards[paths[n]])
      requires forall i, j :: 0 <= i < j < |listed| ==> listed[i] != listed[j]
      modifies this`dashboards
      ensures var plan := Remaps(h, paths, users) + [MarkDone];
              && n + 1 <= |plan|
              && Run(old(State()), plan[n..], listed)
                 == if changed.Some? then Run(State(), plan[n + 1..], listed) else (State(), false)
      ensures changed.Some? ==> dashboards == RemappedPaths(h, paths[..n + 1], users, listed)
      ensures changed.Some? ==>
                changed.value == IssuesUpdates(h.dashboards[paths[n]], IdPairs(Legacy(h, paths[n]), users), listed)
    {
      RemapNext(h, paths, n, users, listed);
      RemapsRunNext(h, State(), paths, n, listed);
      var pairs := IdPairs(Readable(dashboards[paths[n]].legacyUsers), users);
      changed := RemapDashboardUserReferences(paths[n], pairs, listed);
    }

    /** Remaps one dashboard after the other, up to one that does not fit. */
    method RemapAll(ghost h: Host, paths: seq<string>, listed: seq<Column>) returns (remapped: Option<nat>)
      requires ValidPaths(h, paths) && dashboards == h.dashboards
      requires forall p :: p in dashboards ==> KeysDistinct(dashboards[p])
      requires forall i, j :: 0 <= i < j < |listed| ==> listed[i] != listed[j]
      modifies this`dashboards
      ensures var plan := Remaps(h, paths, users) + [MarkDone];
              Run(old(State()), plan, listed)
              == if remapped.Some? then Run(State(), [MarkDone], listed) else (State(), false)
      ensures remapped.Some? ==> remapped.value == CountUpdated(h, paths, users, listed)
    {
      var count := 0;
      ghost var plan := Remaps(h, paths, users) + [MarkDone];
      assert plan[0..] == plan;
      for n := 0 to |paths|
        invariant dashboards == RemappedPaths(h, paths[..n], users, listed)
        invariant Run(old(State()), plan, listed) == Run(State(), plan[n..], listed)
        invariant count == CountUpdated(h, paths[..n], users, listed)
      {
        RemapNext(h, paths, n, users, listed);
        var changed := RemapPath(h, paths, n, listed);
        if changed.None? { return None; }
        if changed.value { count := count + 1; }
      }
      assert paths[..|paths|] == paths && plan[|paths|..] == [MarkDone];
      return Some(count);
    }
  }

  lemma RemapsRunNext(h: Host, s: Host, paths: seq<string>, n: nat, listed: seq<Column>)
    requires n < |paths| && paths[n] in s.dashboards
    ensures var plan, path := Remaps(h, paths, s.users) + [MarkDone], paths[n];
            var d, pairs := s.dashboards[path], IdPairs(Legacy(h, path), s.users);
            && n + 1 <= |plan|
            && Run(s, plan[n..], listed)
               == if Fits(d, pairs, listed)
                  then Run(Host(s.users, s.done, s.dashboards[path := Remapped(d, pairs, listed)]), plan[n + 1..], listed)
                  else (s, false)
  {
    RemapsNextTxn(h, paths, s.users, n);
  }

  lemma RemapsNextTxn(h: Host, paths: seq<string>, users: map<string, User>, n: nat)
    requires n < |paths|
    ensures var plan := Remaps(h, paths, users) + [MarkDone];
            && n + 1 <= |plan| && plan[n..][1..] == plan[n + 1..]
            && plan[n..][0] == Remap(paths[n], IdPairs(Legacy(h, paths[n]), users))
  {}

  lemma MergedByInserts(h: Host, paths: seq<string>)
    ensures InsertAll(h.users, FirstSeen(AllLegacy(h, paths), h.users.Keys)) == MergedUsers(h, paths)
  {}

  lemma InsertsNext(rows: seq<User>, n: nat, rest: seq<Txn>)
    requires n < |rows|
    ensures var ts := Inserts(rows[n..]) + rest;
            ts[0] == InsertUser(rows[n]) && ts[1..] == Inserts(rows[n + 1..]) + rest
  {}

  lemma RemapNext(h: Host, paths: seq<string>, n: nat, users: map<string, User>, listed: seq<Column>)
    requires ValidPaths(h, paths) && n < |paths|
    ensures var before := RemappedPaths(h, paths[..n], users, listed);
            var path, pairs := paths[n], IdPairs(Legacy(h, paths[n]), users);
            && path in before && before[path] == h.dashboards[path]
            && RemappedPaths(h, paths[..n + 1], users, listed)
               == before[path := Remapped(h.dashboards[path], pairs, listed)]
            && CountUpdated(h, paths[..n + 1], users, listed)
               == CountUpdated(h, paths[..n], users, listed)
                  + if IssuesUpdates(h.dashboards[path], pairs, listed) then 1 else 0
  {
    assert paths[..n + 1] == paths[..n] + [paths[n]] && paths[..n + 1][..n] == paths[..n];
    assert paths[n] !in paths[..n];
  }

  /** One column, pair by pair. In a key column an update fails if some row would come to hold an id that another
      one holds; since updates never tell equal ids apart again, one fails exactly if the result would hold an
      id twice. */
  method UpdatePairwise(pairs: seq<Pair>, values: seq<Ref>, isKey: bool) returns (ok: bool, r: seq<Ref>, issued: bool)
    requires isKey ==> Distinct(values)
    ensures ok <==> (isKey ==> Distinct(RewriteAll(pairs, values)))
    ensures ok ==> r == RewriteAll(pairs, values)
    ensures ok ==> (issued <==> exists i :: 0 <= i < |pairs| && pairs[i].old_ != pairs[i].new_)
  {
    r, issued := values, false;
    assert pairs[0..] == pairs;
    for i := 0 to |pairs|
      invariant RewriteAll(pairs[i..], r) == RewriteAll(pairs, values)
      invariant isKey ==> Distinct(r)
      invariant issued <==> exists j :: 0 <= j < i && pairs[j].old_ != pairs[j].new_
    {
      RewriteNext(pairs, i, r);
      if pairs[i].old_ != pairs[i].new_ { issued := true; }
      r := seq(|r|, k requires 0 <= k < |r| => UpdateOne(pairs[i], r[k]));
      if isKey && !Distinct(r) {
        DuplicatesRemain(pairs[i + 1..], r);
        return false, r, issued;
      }
    }
    assert RewriteAll([], r) == r && pairs[|pairs|..] == [];
    return true, r, issued;
  }

  lemma RewriteNext(pairs: seq<Pair>, i: nat, values: seq<Ref>)
    requires i < |pairs|
    ensures RewriteAll(pairs[i..], values)
         == RewriteAll(pairs[i + 1..], seq(|values|, k requires 0 <= k < |values| => UpdateOne(pairs[i], values[k])))
  {
    assert pairs[i..][0] == pairs[i] && pairs[i..][1..] == pairs[i + 1..];
  }

  lemma DuplicatesRemain(pairs: seq<Pair>, values: seq<Ref>)
    requires !Distinct(values)
    ensures !Distinct(RewriteAll(pairs, values))
  {
    var i, j :| 0 <= i < j < |values| && values[i] == values[j];
    assert RewriteAll(pairs, values)[i] == RewriteAll(pairs, values)[j];
  }

  lemma IssuesGrow(d: Dashboard, pairs: seq<Pair>, listed: seq<Column>, n: nat)
    requires n < |listed|
    ensures IssuesUpdates(d, pairs, listed[..n + 1]) <==>
              || IssuesUpdates(d, pairs, listed[..n])
              || (listed[n] in d.refs && exists i :: 0 <= i < |pairs| && pairs[i].old_ != pairs[i].new_)
  {
    var l := listed[..n + 1];
    assert l[n] == listed[n];
    if IssuesUpdates(d, pairs, l) {
      var i :| 0 <= i < |l| && l[i] in d.refs;
      assert i == n || listed[..n][i] in d.refs;
    }
    if IssuesUpdates(d, pairs, listed[..n]) {
      var i :| 0 <= i < n && listed[..n][i] in d.refs;
      assert l[i] in d.refs;
    }
  }

  lemma InsertSingle(users: map<string, User>, u: User)
    ensures InsertAll(users, [u]) == InsertOne(users, u)
  {
    assert [u][1..] == [];
  }

  lemma PlanStartsWithInserts(h: Host, paths: seq<string>, listed: seq<Column>, k: nat)
    requires !h.done && k <= |FirstSeen(AllLegacy(h, paths), h.users.Keys)|
    ensures var first := FirstSeen(AllLegacy(h, paths), h.users.Keys);
            && k <= |Plan(h, paths)|
            && ApplyAll(h, Plan(h, paths)[..k], listed) == h.(users := InsertAll(h.users, first[..k]))
  {
    var first := FirstSeen(AllLegacy(h, paths), h.users.Keys);
    assert Plan(h, paths)[..k] == Inserts(first[..k]);
    InsertsLeave(h, first[..k], listed);
  }
}
