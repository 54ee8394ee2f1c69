/** Deleting an account with everything that hangs from it, statement by statement. */
module Accounts {
  import opened Model

  /** The four tables, reduced to primary and foreign keys. */
  datatype Tables = Tables(
    accounts: set<string>,
    folders: map<string, string>,              // id -> account_id
    fileStates: map<string, string>,           // id -> sync_folder_id
    syncErrors: map<string, Option<string>>)   // id -> file_state_id, which may be NULL

  ghost predicate KeysHold(t: Tables) {
    && (forall f :: f in t.folders ==> t.folders[f] in t.accounts)
    && (forall s :: s in t.fileStates ==> t.fileStates[s] in t.folders)
    && (forall e :: e in t.syncErrors && t.syncErrors[e].Some? ==> t.syncErrors[e].value in t.fileStates)
  }

  datatype Statement =
    | DeleteErrorsOf(folder: string)
    | DeleteStatesOf(folder: string)
    | DeleteFoldersOf(account: string)
    | DeleteAccount(account: string)

  function Apply(t: Tables, st: Statement): Tables {
    match st
    case DeleteErrorsOf(folder) =>
      t.(syncErrors := map e | e in t.syncErrors && !ErrorIn(t, e, {folder}) :: t.syncErrors[e])
    case DeleteStatesOf(folder) =>
      t.(fileStates := map s | s in t.fileStates && t.fileStates[s] != folder :: t.fileStates[s])
    case DeleteFoldersOf(account) =>
      t.(folders := map f | f in t.folders && t.folders[f] != account :: t.folders[f])
    case DeleteAccount(account) => t.(accounts := t.accounts - {account})
  }

  /** Error `e` belongs to a file of one of the folders. */
  predicate ErrorIn(t: Tables, e: string, folders: set<string>)
    requires e in t.syncErrors
  {
    match t.syncErrors[e]
    case Some(s) => s in t.fileStates && t.fileStates[s] in folders
    case None => false
  }

  /** Whether the keys would still hold; the database refuses a statement otherwise. */
  ghost predicate Permitted(t: Tables, st: Statement) { KeysHold(Apply(t, st)) }

  ghost predicate AllPermitted(t: Tables, script: seq<Statement>)
    decreases |script|
  {
    script != [] ==> Permitted(t, script[0]) && AllPermitted(Apply(t, script[0]), script[1..])
  }

  function ApplyAll(t: Tables, script: seq<Statement>): Tables
    decreases |script|
  {
    if script == [] then t else ApplyAll(Apply(t, script[0]), script[1..])
  }

  function FolderScript(ids: seq<string>): seq<Statement> {
    if ids == [] then [] else [DeleteErrorsOf(ids[0]), DeleteStatesOf(ids[0])] + FolderScript(ids[1..])
  }

  function CascadeScript(account: string, ids: seq<string>): seq<Statement> {
    FolderScript(ids) + [DeleteFoldersOf(account), DeleteAccount(account)]
  }

  /** The tables without the files of the folders and without their errors. */
  ghost function WithoutFiles(t: Tables, folders: set<string>): Tables {
    t.(fileStates := map s | s in t.fileStates && t.fileStates[s] !in folders :: t.fileStates[s],
       syncErrors := map e | e in t.syncErrors && !ErrorIn(t, e, folders) :: t.syncErrors[e])
  }

  ghost function FoldersOf(t: Tables, account: string): set<string> {
    set f | f in t.folders && t.folders[f] == account
  }

  /** The tables without exactly the rows that lead, key by key, to the account. */
  ghost function WithoutAccount(t: Tables, account: string): Tables {
    WithoutFiles(t, FoldersOf(t, account)).(
      folders := map f | f in t.folders && t.folders[f] != account :: t.folders[f],
      accounts := t.accounts - {account})
  }

  ghost function SetOf(ids: seq<string>): set<string> { set i | i in ids }

  lemma FolderStep(t: Tables, folder: string)
    requires KeysHold(t)
    ensures Permitted(t, DeleteErrorsOf(folder))
    ensures Permitted(Apply(t, DeleteErrorsOf(folder)), DeleteStatesOf(folder))
    ensures Apply(Apply(t, DeleteErrorsOf(folder)), DeleteStatesOf(folder)) == WithoutFiles(t, {folder})
  {
  }

  lemma WithoutFilesTwice(t: Tables, a: set<string>, b: set<string>)
    ensures WithoutFiles(WithoutFiles(t, a), b) == WithoutFiles(t, a + b)
  {
    var once := WithoutFiles(t, a);
    assert WithoutFiles(once, b).fileStates == WithoutFiles(t, a + b).fileStates;
    forall e | e in t.syncErrors
      ensures e in WithoutFiles(once, b).syncErrors <==> e in WithoutFiles(t, a + b).syncErrors
    {
      if e in once.syncErrors { assert ErrorIn(once, e, b) <==> ErrorIn(t, e, b) && !ErrorIn(t, e, a); }
      assert ErrorIn(t, e, a + b) <==> ErrorIn(t, e, a) || ErrorIn(t, e, b);
    }
    assert WithoutFiles(once, b).syncErrors == WithoutFiles(t, a + b).syncErrors;
  }

  lemma {:induction false} FoldersCleared(t: Tables, ids: seq<string>, after: seq<Statement>)
    requires KeysHold(t)
    ensures KeysHold(WithoutFiles(t, SetOf(ids)))
    ensures ApplyAll(t, FolderScript(ids) + after) == ApplyAll(WithoutFiles(t, SetOf(ids)), after)
    ensures AllPermitted(WithoutFiles(t, SetOf(ids)), after) ==> AllPermitted(t, FolderScript(ids) + after)
    decreases |ids|
  {
    hide KeysHold, Permitted, Apply;
    if ids == [] {
      assert FolderScript(ids) + after == after && WithoutFiles(t, SetOf(ids)) == t;
    } else {
      var script := FolderScript(ids) + after;
      var rest := FolderScript(ids[1..]) + after;
      assert script[1..][1..] == rest && script[0] == DeleteErrorsOf(ids[0])
          && script[1..][0] == DeleteStatesOf(ids[0]);
      FolderStep(t, ids[0]);
      FoldersCleared(WithoutFiles(t, {ids[0]}), ids[1..], after);
      WithoutFilesTwice(t, {ids[0]}, SetOf(ids[1..]));
      assert SetOf(ids) == {ids[0]} + SetOf(ids[1..]);
    }
  }

  lemma TwoStatements(t: Tables, a: Statement, b: Statement)
    ensures ApplyAll(t, [a, b]) == Apply(Apply(t, a), b)
    ensures AllPermitted(t, [a, b]) <==> Permitted(t, a) && Permitted(Apply(t, a), b)
  {
    assert [a, b][1..] == [b] && [b][1..] == [];
    assert ApplyAll(Apply(t, a), [b]) == ApplyAll(Apply(Apply(t, a), b), []);
    assert AllPermitted(Apply(t, a), [b]) <==> Permitted(Apply(t, a), b) && AllPermitted(Apply(Apply(t, a), b), []);
  }

  lemma AccountStep(t: Tables, account: string)
    requires KeysHold(t) && forall s :: s in t.fileStates ==> t.folders[t.fileStates[s]] != account
    ensures Permitted(t, DeleteFoldersOf(account))
    ensures Permitted(Apply(t, DeleteFoldersOf(account)), DeleteAccount(account))
  {
  }

  /** Whatever the order of the folders, no statement of the cascade breaks a foreign key, and the
      cascade removes exactly the rows that lead to the account. */
  lemma CascadeIsExact(t: Tables, account: string, ids: seq<string>)
    requires KeysHold(t) && SetOf(ids) == FoldersOf(t, account)
    ensures AllPermitted(t, CascadeScript(account, ids))
    ensures ApplyAll(t, CascadeScript(account, ids)) == WithoutAccount(t, account)
    ensures KeysHold(WithoutAccount(t, account))
  {
    var cleared := WithoutFiles(t, SetOf(ids));
    FoldersCleared(t, ids, [DeleteFoldersOf(account), DeleteAccount(account)]);
    TwoStatements(cleared, DeleteFoldersOf(account), DeleteAccount(account));
    forall s | s in cleared.fileStates ensures cleared.folders[cleared.fileStates[s]] != account {
      assert t.fileStates[s] !in FoldersOf(t, account);
    }
    AccountStep(cleared, account);
    assert Apply(Apply(cleared, DeleteFoldersOf(account)), DeleteAccount(account)) == WithoutAccount(t, account);
  }

  /** Row by row: the account is gone, with its folders, their files and the errors of these files, and nothing else;
      an error without a file stays. */
  ghost predicate GoneExactly(t: Tables, account: string, after: Tables) {
    && (forall a :: a in after.accounts <==> a in t.accounts && a != account)
    && (forall f :: f in after.folders <==> f in t.folders && t.folders[f] != account)
    && (forall s :: s in after.fileStates <==> s in t.fileStates && !BelongsTo(t, s, account))
    && (forall e :: e in after.syncErrors <==>
          e in t.syncErrors
          && !(t.syncErrors[e].Some? && t.syncErrors[e].value in t.fileStates
               && BelongsTo(t, t.syncErrors[e].value, account)))
    && (forall f :: f in after.folders ==> after.folders[f] == t.folders[f])
    && (forall s :: s in after.fileStates ==> after.fileStates[s] == t.fileStates[s])
    && (forall e :: e in after.syncErrors ==> after.syncErrors[e] == t.syncErrors[e])
  }

  /** The file lies in a folder of the account. */
  ghost predicate BelongsTo(t: Tables, s: string, account: string)
    requires s in t.fileStates
  {
    t.fileStates[s] in t.folders && t.folders[t.fileStates[s]] == account
  }

  lemma WithoutAccountIsGone(t: Tables, account: string)
    ensures GoneExactly(t, account, WithoutAccount(t, account))
  {
  }

  /** The order matters: the folders of an account can go exactly when no file state is left in them, and the
      account exactly when no folder is left. */
  lemma ParentsGoLast(t: Tables, account: string)
    requires KeysHold(t)
    ensures Permitted(t, DeleteFoldersOf(account)) <==>
              forall s :: s in t.fileStates ==> t.folders[t.fileStates[s]] != account
    ensures Permitted(t, DeleteAccount(account)) <==> FoldersOf(t, account) == {}
  {
    var cleared := Apply(t, DeleteFoldersOf(account));
    assert forall s :: s in t.fileStates ==>
        (t.fileStates[s] in cleared.folders <==> t.folders[t.fileStates[s]] != account);
    assert forall f :: f in FoldersOf(t, account) ==> t.folders[f] !in Apply(t, DeleteAccount(account)).accounts;
    if FoldersOf(t, account) == {} {
      assert forall f :: f in t.folders ==> f !in FoldersOf(t, account);
    }
  }

  class Database {
    var tables: Tables

    /** One DELETE inside the transaction. */
    method Execute(st: Statement)
      requires KeysHold(tables) && Permitted(tables, st)
      modifies this
      ensures tables == Apply(old(tables), st) && KeysHold(tables)
    {
      tables := Apply(tables, st);
    }

    /** The ids of the account's folders, in the order the database happens to return them. */
    method SelectFolderIds(account: string) returns (ids: seq<string>)
      ensures SetOf(ids) == FoldersOf(tables, account)
    {
      ids := [];
      var left := set f | f in tables.folders && tables.folders[f] == account;
      while left != {}
        invariant SetOf(ids) + left == FoldersOf(tables, account)
      {
        var f :| f in left;
        ids := ids + [f];
        left := left - {f};
      }
    }

    method DeleteCascade(account: string)
      requires KeysHold(tables)
      modifies this
      ensures tables == WithoutAccount(old(tables), account) && KeysHold(tables)
      ensures GoneExactly(old(tables), account, tables)
    {
      WithoutAccountIsGone(tables, account);
      var ids := SelectFolderIds(account);
      ghost var start := tables;
      CascadeIsExact(start, account, ids);
      ghost var tail := [DeleteFoldersOf(account), DeleteAccount(account)];
      var rest := ids;
      while rest != []
        invariant KeysHold(tables)
        invariant ApplyAll(tables, FolderScript(rest) + tail) == WithoutAccount(start, account)
        invariant AllPermitted(tables, FolderScript(rest) + tail)
        decreases |rest|
      {
        ghost var script := FolderScript(rest) + tail;
        assert script[0] == DeleteErrorsOf(rest[0]) && script[1..][0] == DeleteStatesOf(rest[0]);
        assert script[1..][1..] == FolderScript(rest[1..]) + tail;
        Execute(DeleteErrorsOf(rest[0]));
        Execute(DeleteStatesOf(rest[0]));
        rest := rest[1..];
      }
      assert FolderScript(rest) + tail == [DeleteFoldersOf(account), DeleteAccount(account)];
      TwoStatements(tables, DeleteFoldersOf(account), DeleteAccount(account));
      Execute(DeleteFoldersOf(account));
      Execute(DeleteAccount(account));
    }
  }
}
