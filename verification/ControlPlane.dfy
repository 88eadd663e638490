/**
 Core's own setup against auth: one attempt after another, each a string of remote calls that ends in
 one upsert of the control_plane row.  Auth keeps the key of the first control client it is given, and
 its setup window closes when the administrator is created or setup is completed.
 */
module ControlPlane {
  import opened Basics

  datatype Row = Row(key: string, completedAt: Option<int>, consoleId: string)

  datatype Auth = Auth(locked: bool, clientKey: Option<string>)

  datatype World = World(row: Option<Row>, auth: Auth)

  const START: World := World(None, Auth(false, None))

  /**
   One attempt.  Its calls: 0 dialing and auth's status; in a closed window 1 the row's read and 2 its
   write; in an open one 3 the tenant and control service, 4 the row's read, 5 deriving or generating
   the key, 6 the control client, 7 the best-effort API, role and console client, 8 the catalog, 9 the
   administrator, 10 completing, 11 the row's write.
   */
  datatype Attempt = Attempt(now: int, minted: string, consoleId: string, f: Fates)

  function StoredKey(w: World): string { if w.row.Some? then w.row.value.key else "" }

  predicate Completed(w: World) { w.row.Some? && w.row.value.completedAt.Some? }

  function ConsoleId(w: World): string { if w.row.Some? then w.row.value.consoleId else "" }

  /** The upsert: an empty key means keep the stored one, every other column is overwritten. */
  function Upsert(w: World, key: string, completedAt: Option<int>, consoleId: string): World {
    w.(row := Some(Row(if key != "" then key else StoredKey(w), completedAt, consoleId)))
  }

  /** Auth is already set up: record that, if the row read back does not say so. */
  function AlreadyComplete(w: World, a: Attempt): World {
    var readable := a.f(1).Fine?;
    if Dies(a.f(1)) || (readable && Completed(w)) || !Takes(a.f(2)) then w
    else Upsert(w, "", Some(a.now), if readable then ConsoleId(w) else "")
  }

  /** The stored key if it can be read, else a new one. */
  function ControlKey(w: World, a: Attempt): string {
    if a.f(4).Fine? && StoredKey(w) != "" then StoredKey(w) else a.minted
  }

  /** The attempt gets as far as offering auth its control client. */
  predicate Offers(w: World, a: Attempt) {
    !w.auth.locked && a.f(0).Fine? && a.f(3).Fine? && !Dies(a.f(4)) && a.f(5).Fine?
  }

  /** Auth's get-or-create: the first key stays. */
  function Register(w: World, key: string, f: Fate): World {
    if Takes(f) && w.auth.clientKey.None? then w.(auth := w.auth.(clientKey := Some(key))) else w
  }

  function CloseWindow(w: World, f: Fate): World { if Takes(f) then w.(auth := w.auth.(locked := true)) else w }

  function Provision(w: World, a: Attempt): World {
    var key := ControlKey(w, a);
    var w1 := Register(w, key, a.f(6));
    if !a.f(6).Fine? || Dies(a.f(7)) || !a.f(8).Fine? then w1
    else
      var w2 := CloseWindow(w1, a.f(9));
      if !a.f(9).Fine? then w2
      else
        var w3 := CloseWindow(w2, a.f(10));
        if !a.f(10).Fine? || !Takes(a.f(11)) then w3
        else Upsert(w3, key, Some(a.now), if a.f(7).Fine? then a.consoleId else "")
  }

  function RunAttempt(w: World, a: Attempt): World {
    if !a.f(0).Fine? then w
    else if w.auth.locked then AlreadyComplete(w, a)
    else if Offers(w, a) then Provision(w, a)
    else w
  }

  function RunAll(attempts: seq<Attempt>): World
    decreases |attempts|
  {
    if attempts == [] then START else RunAttempt(RunAll(attempts[..|attempts| - 1]), attempts[|attempts| - 1])
  }

  // ---- the orchestrator --------------------------------------------------------------------------

  class Orchestrator {
    var row: Option<Row>
    var auth: Auth
    var running: bool

    ghost function W(): World
      reads this
    {
      World(row, auth)
    }

    constructor ()
      ensures W() == START && !running
    {
      row, auth, running := None, Auth(false, None), false;
    }

    method TryBegin() returns (ok: bool)
      modifies this`running
      ensures running && ok == !old(running)
    {
      ok := !running;
      running := true;
    }

    method End()
      modifies this`running
      ensures !running
    {
      running := false;
    }

    method Persist(key: string, completedAt: Option<int>, consoleId: string, f: Fate)
      modifies this`row
      ensures W() == if Takes(f) then Upsert(old(W()), key, completedAt, consoleId) else old(W())
    {
      if !Takes(f) { return; }
      var kept := if row.Some? then row.value.key else "";
      row := Some(Row(if key != "" then key else kept, completedAt, consoleId));
    }

    /** The open window: calls in order, stopping at the first that does not come back well. */
    method ProvisionAuth(a: Attempt)
      requires !auth.locked && a.f(0).Fine?
      modifies this`row, this`auth
      ensures W() == if Offers(old(W()), a) then Provision(old(W()), a) else old(W())
    {
      if !a.f(3).Fine? || Dies(a.f(4)) || !a.f(5).Fine? { return; }
      var key := a.minted;
      if a.f(4).Fine? && row.Some? && row.value.key != "" { key := row.value.key; }
      if Takes(a.f(6)) && auth.clientKey.None? { auth := auth.(clientKey := Some(key)); }
      if !a.f(6).Fine? || Dies(a.f(7)) { return; }
      var consoleId := if a.f(7).Fine? then a.consoleId else "";
      if !a.f(8).Fine? { return; }
      if Takes(a.f(9)) { auth := auth.(locked := true); }
      if !a.f(9).Fine? { return; }
      if Takes(a.f(10)) { auth := auth.(locked := true); }
      if !a.f(10).Fine? { return; }
      Persist(key, Some(a.now), consoleId, a.f(11));
    }

    /** An attempt made while another is in flight changes nothing and leaves it in flight. */
    method RunWith(a: Attempt) returns (started: bool)
      modifies this
      ensures started == !old(running) && running == old(running)
      ensures W() == if started then RunAttempt(old(W()), a) else old(W())
    {
      started := TryBegin();
      if !started { return; }
      if a.f(0).Fine? {
        if !auth.locked {
          ProvisionAuth(a);
        } else if !Dies(a.f(1)) {
          var stored := if a.f(1).Fine? then row else None;
          if stored.None? || stored.value.completedAt.None? {
            Persist("", Some(a.now), if stored.Some? then stored.value.consoleId else "", a.f(2));
          }
        }
      }
      End();
    }
  }

  // ---- durability --------------------------------------------------------------------------------

  /** Completion is never taken back, whatever fails. */
  lemma {:induction false} CompletionIsDurable(attempts: seq<Attempt>, n: nat)
    requires n <= |attempts| && Completed(RunAll(attempts[..n]))
    ensures Completed(RunAll(attempts))
    decreases |attempts|
  {
    if n < |attempts| {
      var m := |attempts| - 1;
      assert attempts[..m][..n] == attempts[..n];
      CompletionIsDurable(attempts[..m], n);
    } else {
      assert attempts[..n] == attempts;
    }
  }

  /** While the row can be read, a key once stored is the same key ever after. */
  lemma {:induction false} StoredKeyIsDurable(attempts: seq<Attempt>, n: nat)
    requires n <= |attempts| && StoredKey(RunAll(attempts[..n])) != ""
    requires forall i :: 0 <= i < |attempts| ==> attempts[i].f(4).Fine? || Dies(attempts[i].f(4))
    ensures StoredKey(RunAll(attempts)) == StoredKey(RunAll(attempts[..n]))
    decreases |attempts|
  {
    if n < |attempts| {
      var m := |attempts| - 1;
      assert attempts[..m][..n] == attempts[..n];
      StoredKeyIsDurable(attempts[..m], n);
    } else {
      assert attempts[..n] == attempts;
    }
  }

  predicate Persists(w: World, a: Attempt) {
    && Offers(w, a) && a.f(6).Fine? && !Dies(a.f(7)) && a.f(8).Fine? && a.f(9).Fine? && a.f(10).Fine? && Takes(a.f(11))
  }

  /**
   A stored control key survives an attempt exactly when the attempt does not both fail to read it and
   get as far as writing the row: an unreadable row looks like a first run.
   */
  lemma StoredKeyKeptIff(w: World, a: Attempt)
    requires StoredKey(w) != "" && a.minted != "" && a.minted != StoredKey(w)
    ensures StoredKey(RunAttempt(w, a)) == StoredKey(w) <==> !(Persists(w, a) && !a.f(4).Fine?)
  {
  }

  // ---- completion --------------------------------------------------------------------------------

  /** Every call of the attempt comes back well. */
  ghost predicate Clean(a: Attempt) { forall i: nat :: a.f(i).Fine? }

  predicate HasKey(w: World) { w.row.Some? && w.row.value.key != "" }

  /**
   From an open window one clean attempt completes: auth is locked, the row carries the attempt's time
   and console id and the key it had before or the new one, and auth holds that key unless it already
   had one.
   */
  lemma CleanAttemptCompletes(w: World, a: Attempt)
    requires !w.auth.locked && Clean(a)
    ensures var w' := RunAttempt(w, a);
      && w'.auth.locked && w'.row.Some?
      && w'.row.value == Row(if HasKey(w) then w.row.value.key else a.minted, Some(a.now), a.consoleId)
      && w'.auth.clientKey == (if w.auth.clientKey.Some? then w.auth.clientKey else Some(w'.row.value.key))
  {
    assert a.f(0).Fine? && a.f(3).Fine? && a.f(4).Fine? && a.f(5).Fine? && a.f(6).Fine? && a.f(7).Fine? && a.f(8).Fine?;
    assert a.f(9).Fine? && a.f(10).Fine? && a.f(11).Fine?;
  }

  /**
   In a closed window a clean attempt leaves completion recorded, at the time it was first recorded or
   else now, and touches neither the key, the console id nor auth.
   */
  lemma CleanAttemptRecords(w: World, a: Attempt)
    requires w.auth.locked && Clean(a)
    ensures var w' := RunAttempt(w, a);
      && w'.auth == w.auth && w'.row.Some?
      && (w.row.Some? ==> w'.row.value.key == w.row.value.key && w'.row.value.consoleId == w.row.value.consoleId)
      && (w.row.None? ==> w'.row.value.key == "" && w'.row.value.consoleId == "")
      && w'.row.value.completedAt == (if w.row.Some? && w.row.value.completedAt.Some? then w.row.value.completedAt else Some(a.now))
  {
    assert a.f(0).Fine? && a.f(1).Fine? && a.f(2).Fine?;
  }

  /**
   Auth's window closes exactly when the administrator is created, which is the last thing but one an
   attempt does, and only if nothing before it failed; the row is not written by then.
   */
  lemma WindowClosesIff(w: World, a: Attempt)
    requires !w.auth.locked
    ensures RunAttempt(w, a).auth.locked <==>
      && a.f(0).Fine? && a.f(3).Fine? && !Dies(a.f(4)) && a.f(5).Fine? && a.f(6).Fine? && !Dies(a.f(7)) && a.f(8).Fine?
      && Takes(a.f(9))
    ensures !a.f(9).Fine? || !a.f(10).Fine? ==> RunAttempt(w, a).row == w.row
  {
  }

  /** An attempt that writes the row from an open window records the console it was given, or none if that best-effort step failed. */
  lemma ConsoleIsBestEffort(w: World, a: Attempt)
    requires !w.auth.locked && RunAttempt(w, a).row != w.row
    ensures RunAttempt(w, a).row.Some? && RunAttempt(w, a).row.value.consoleId == (if a.f(7).Fine? then a.consoleId else "")
    ensures RunAttempt(w, a).row.value.completedAt == Some(a.now)
  {
  }

  /** Whatever went wrong before, one clean attempt leaves setup complete, and every later one leaves it so. */
  lemma OneCleanAttemptIsEnough(attempts: seq<Attempt>, n: nat)
    requires n < |attempts| && Clean(attempts[n])
    ensures Completed(RunAll(attempts))
  {
    var w, a := RunAll(attempts[..n]), attempts[n];
    assert attempts[..n + 1][..n] == attempts[..n];
    if w.auth.locked {
      CleanAttemptRecords(w, a);
    } else {
      CleanAttemptCompletes(w, a);
    }
    CompletionIsDurable(attempts, n + 1);
  }

  // ---- agreement with auth -----------------------------------------------------------------------

  /** The control client auth holds was registered under the key core stores. */
  predicate Agrees(w: World) { w.auth.clientKey.Some? ==> StoredKey(w) == w.auth.clientKey.value }

  /** This attempt makes auth register a key that core then does not store. */
  predicate Orphans(w: World, a: Attempt) {
    w.auth.clientKey.None? && Offers(w, a) && Takes(a.f(6)) && !Persists(w, a)
  }

  predicate OrphansAt(attempts: seq<Attempt>, i: nat)
    requires i < |attempts|
  {
    Orphans(RunAll(attempts[..i]), attempts[i])
  }

  /** Keys are generated afresh, and the row can be read whenever the key is needed. */
  predicate WellRead(attempts: seq<Attempt>) {
    && (forall i :: 0 <= i < |attempts| ==> attempts[i].minted != "" && (attempts[i].f(4).Fine? || Dies(attempts[i].f(4))))
    && (forall i, j :: 0 <= i < j < |attempts| ==> attempts[i].minted != attempts[j].minted)
  }

  /** Auth's key, if any, came from one of the attempts; a stored key means auth has one. */
  predicate KeysFrom(w: World, attempts: seq<Attempt>) {
    && (w.auth.clientKey.Some? ==> exists i :: 0 <= i < |attempts| && attempts[i].minted == w.auth.clientKey.value)
    && (w.auth.clientKey.None? ==> StoredKey(w) == "")
    && (Completed(w) ==> w.auth.locked)
  }

  lemma AttemptAgreesIff(w: World, a: Attempt)
    requires a.minted != "" && (a.f(4).Fine? || Dies(a.f(4))) && (w.auth.clientKey.None? ==> StoredKey(w) == "")
    requires w.auth.clientKey.Some? ==> w.auth.clientKey.value != "" && w.auth.clientKey.value != a.minted
    ensures Agrees(RunAttempt(w, a)) <==> Agrees(w) && !Orphans(w, a)
  {
  }

  lemma {:induction false} KeysAreFrom(attempts: seq<Attempt>)
    requires WellRead(attempts)
    ensures KeysFrom(RunAll(attempts), attempts)
    decreases |attempts|
  {
    if attempts != [] {
      var n := |attempts| - 1;
      KeysAreFrom(attempts[..n]);
      var w := RunAll(attempts[..n]);
      if w.auth.clientKey.Some? {
        var i :| 0 <= i < n && attempts[..n][i].minted == w.auth.clientKey.value;
        assert attempts[i].minted == w.auth.clientKey.value;
      }
      assert attempts[n].minted == attempts[n].minted;
    }
  }

  /**
   Over any sequence of attempts that can read the row, core's key and auth's agree at the end exactly
   when no attempt along the way registered a key it did not live to store.
   */
  lemma {:induction false} AgreementIff(attempts: seq<Attempt>)
    requires WellRead(attempts)
    ensures Agrees(RunAll(attempts)) <==> forall i :: 0 <= i < |attempts| ==> !OrphansAt(attempts, i)
    decreases |attempts|
  {
    if attempts != [] {
      var n := |attempts| - 1;
      var before := attempts[..n];
      AgreementIff(before);
      KeysAreFrom(before);
      var w := RunAll(before);
      if w.auth.clientKey.Some? {
        var i :| 0 <= i < n && before[i].minted == w.auth.clientKey.value;
        assert attempts[i].minted == w.auth.clientKey.value;
      }
      AttemptAgreesIff(w, attempts[n]);
      assert forall i :: 0 <= i < n ==> before[..i] == attempts[..i];
      assert forall i :: 0 <= i < n ==> OrphansAt(before, i) == OrphansAt(attempts, i);
      assert OrphansAt(attempts, n) == Orphans(w, attempts[n]);
    }
  }

  /** If the window closed on such an attempt, core never has a key again, and may still record completion. */
  lemma {:induction false} ClosedWithoutKey(attempts: seq<Attempt>, n: nat)
    requires n <= |attempts| && RunAll(attempts[..n]).auth.locked && StoredKey(RunAll(attempts[..n])) == ""
    ensures RunAll(attempts).auth.locked && StoredKey(RunAll(attempts)) == ""
    decreases |attempts|
  {
    if n < |attempts| {
      var m := |attempts| - 1;
      assert attempts[..m][..n] == attempts[..n];
      ClosedWithoutKey(attempts[..m], n);
    } else {
      assert attempts[..n] == attempts;
    }
  }

  function Only(k: nat, fate: Fate): Fates { (i: nat) => if i == k then fate else Fine }

  /** One lost final write after setup completed, then a clean attempt: complete, and no key. */
  lemma CompletesWithoutKey()
    ensures var w := RunAll([Attempt(1, "k", "c", Only(11, Fails)), Attempt(2, "m", "c", (i: nat) => Fine)]);
      Completed(w) && StoredKey(w) == "" && w.auth.clientKey == Some("k")
  {
    var first := Attempt(1, "k", "c", Only(11, Fails));
    var second := Attempt(2, "m", "c", (i: nat) => Fine);
    assert [first, second][..1] == [first] && [first][..0] == [];
    assert RunAll([first]) == RunAttempt(START, first) == World(None, Auth(true, Some("k")));
  }
}
