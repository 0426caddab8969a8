/** The invariant of `Protocol` is kept by every step of every handler, in every interleaving. */
module ProtocolProofs {
  import opened StoreState
  import opened Protocol

  // ---- what a step may do to the rest of the world

  /**
   Issued matches never come back, keep their players, never return to PENDING; confirmations of stored matches stay.
   */
  ghost predicate Evolves(w: World, w': World) {
    && (forall k :: Issued(w.store, k) ==> Issued(w'.store, k))
    && w.posted <= w'.posted && w.adminRegistered <= w'.adminRegistered && w.adminConfirmed <= w'.adminConfirmed
    && (forall k :: Issued(w.store, k) && k in w'.store.matches ==>
          && k in w.store.matches
          && w'.store.matches[k].player1 == w.store.matches[k].player1
          && w'.store.matches[k].player2 == w.store.matches[k].player2
          && w'.store.matches[k].registeredBy == w.store.matches[k].registeredBy
          && (w.store.matches[k].status != Pending ==> w'.store.matches[k].status != Pending))
    && (forall r :: r in w.store.confirmations && r.match_ in w'.store.matches ==> r in w'.store.confirmations)
  }

  lemma ThreadKept(w: World, w': World, t: Thread)
    requires Evolves(w, w') && ThreadOk(w, t)
    requires t.RegInserted? ==> t.key !in w'.posted
    ensures ThreadOk(w', t)
  {
  }

  lemma NotYetPosted(w: World, t: Thread)
    requires ThreadOk(w, t)
    ensures t.RegInserted? ==> t.key !in w.posted
  {
  }

  /** Only thread tid changes. */
  ghost predicate OnlyThread(w: World, w': World, tid: ThreadId) {
    forall i :: i != tid ==> (i in w.threads <==> i in w'.threads) && (i in w.threads ==> w'.threads[i] == w.threads[i])
  }

  lemma ThreadsKept(w: World, w': World, tid: ThreadId)
    requires ThreadsOk(w) && Evolves(w, w') && OnlyThread(w, w', tid) && w'.posted == w.posted
    requires tid in w'.threads ==> ThreadOk(w', w'.threads[tid])
    ensures ThreadsOk(w')
  {
    hide Evolves, ThreadOk;
    forall i | i in w'.threads ensures ThreadOk(w', w'.threads[i]) {
      if i != tid { NotYetPosted(w, w.threads[i]); ThreadKept(w, w', w.threads[i]); }
    }
  }

  lemma RegistrarKept(w: World, w': World, tid: ThreadId)
    requires OneRegistrar(w) && OnlyThread(w, w', tid)
    requires tid in w'.threads && Registering(w'.threads[tid]) ==>
               tid in w.threads && Registering(w.threads[tid]) && w.threads[tid].key == w'.threads[tid].key
    ensures OneRegistrar(w')
  {
  }

  lemma NoneLostKept(w: World, w': World, tid: ThreadId)
    requires NoneLost(w) && OnlyThread(w, w', tid)
    requires forall k :: Overdue(w'.store, k) ==>
               Overdue(w.store, k) || (tid in w'.threads && InFlight(w'.threads[tid], k))
    requires forall k :: Overdue(w'.store, k) && tid in w.threads && InFlight(w.threads[tid], k) ==>
               tid in w'.threads && InFlight(w'.threads[tid], k)
    ensures NoneLost(w')
  {
    hide Overdue, InFlight;
    forall k | Overdue(w'.store, k) ensures SomeInFlight(w', k) {
      if tid in w'.threads && InFlight(w'.threads[tid], k) {
      } else {
        var i :| i in w.threads && InFlight(w.threads[i], k);
        assert i in w'.threads && InFlight(w'.threads[i], k);
      }
    }
  }

  // ---- steps that leave the store alone

  /** The world changes only in thread tid and in the recorded history. */
  lemma LocalStep(w: World, w': World, tid: ThreadId)
    requires Inv(w) && OnlyThread(w, w', tid) && w'.store == w.store && w'.posted == w.posted
    requires w'.adminRegistered == w.adminRegistered && w.adminConfirmed <= w'.adminConfirmed
    requires forall k :: k in w'.adminConfirmed ==> Issued(w.store, k)
    requires tid in w'.threads ==> ThreadOk(w', w'.threads[tid]) && !Registering(w'.threads[tid])
    requires forall k :: Overdue(w.store, k) && tid in w.threads && InFlight(w.threads[tid], k) ==>
               tid in w'.threads && InFlight(w'.threads[tid], k)
    ensures Inv(w')
  {
    assert Evolves(w, w');
    hide ThreadOk, Overdue, InFlight;
    ThreadsKept(w, w', tid);
    RegistrarKept(w, w', tid);
    NoneLostKept(w, w', tid);
  }

  // ---- steps that write the store

  lemma StoreStep(w: World, w': World, tid: ThreadId)
    requires Inv(w) && Evolves(w, w') && OnlyThread(w, w', tid) && w'.posted == w.posted
    requires StoreOk(w') && AuthorsFirst(w') && AllJustified(w')
    requires tid in w'.threads ==> ThreadOk(w', w'.threads[tid])
    requires tid in w'.threads && Registering(w'.threads[tid]) ==>
               tid in w.threads && Registering(w.threads[tid]) && w.threads[tid].key == w'.threads[tid].key
    requires forall k :: Overdue(w'.store, k) ==>
               Overdue(w.store, k) || (tid in w'.threads && InFlight(w'.threads[tid], k))
    requires forall k :: Overdue(w'.store, k) && tid in w.threads && InFlight(w.threads[tid], k) ==>
               tid in w'.threads && InFlight(w'.threads[tid], k)
    ensures Inv(w')
  {
    hide Evolves, ThreadOk, StoreOk, AuthorsFirst, AllJustified, Overdue, InFlight;
    ThreadsKept(w, w', tid);
    RegistrarKept(w, w', tid);
    NoneLostKept(w, w', tid);
  }

  /** The thread neither registers nor confirms. */
  ghost predicate Uninvolved(t: Thread) { !Registering(t) && forall k :: !InFlight(t, k) }

  lemma UninvolvedLocal(w: World, w': World, tid: ThreadId)
    requires Inv(w) && w' == w.(threads := w'.threads) && OnlyThread(w, w', tid)
    requires tid in w.threads && Uninvolved(w.threads[tid])
    requires tid in w'.threads ==> ThreadOk(w', w'.threads[tid]) && Uninvolved(w'.threads[tid])
    ensures Inv(w')
  {
    assert forall k :: k in w.adminConfirmed ==> Issued(w.store, k);
    hide ThreadOk, Overdue, InFlight, Registering, Issued, StoreOk, AuthorsFirst, AllJustified;
    LocalStep(w, w', tid);
    hide Inv;
  }

  lemma UninvolvedStore(w: World, w': World, tid: ThreadId)
    requires Inv(w) && Evolves(w, w') && OnlyThread(w, w', tid) && w'.posted == w.posted
    requires StoreOk(w') && AuthorsFirst(w') && AllJustified(w')
    requires tid in w.threads && Uninvolved(w.threads[tid])
    requires tid in w'.threads ==> ThreadOk(w', w'.threads[tid]) && Uninvolved(w'.threads[tid])
    requires forall k :: Overdue(w'.store, k) ==> Overdue(w.store, k)
    ensures Inv(w')
  {
    hide Inv, ThreadOk, Overdue, InFlight, Registering, StoreOk, AuthorsFirst, AllJustified, Evolves;
    StoreStep(w, w', tid);
  }

  lemma ConfirmFacts(w: World, w': World, k: MatchKey, u: UserId, at: int)
    requires StoreOk(w) && Issued(w.store, k) && w'.store == Confirm(w.store, k, u, at)
    requires w'.posted == w.posted && w'.adminRegistered == w.adminRegistered && w'.adminConfirmed == w.adminConfirmed
    ensures StoreOk(w') && Evolves(w, w')
    ensures AllJustified(w) ==> AllJustified(w')
    ensures forall q :: Overdue(w'.store, q) && q != k ==> Overdue(w.store, q)
  {
  }

  lemma UnpostedNotOverdue(w: World, k: MatchKey)
    requires StoreOk(w) && AuthorsFirst(w) && k !in w.posted
    ensures !Overdue(w.store, k)
  {
  }

  lemma StepRegInserted(w: World, tid: ThreadId, key: MatchKey, author: UserId, admin: bool, now: int)
    requires Inv(w) && tid in w.threads && w.threads[tid] == RegInserted(key, author)
    ensures Inv(Proceed(w, tid, w.threads[tid], admin, now))
  {
    var w' := Proceed(w, tid, w.threads[tid], admin, now);
    ConfirmFacts(w, w', key, author, now);
    assert AuthorsFirst(w');
    UnpostedNotOverdue(w', key);
    StoreStep(w, w', tid);
  }

  lemma StepConfirmRead(w: World, tid: ThreadId, key: MatchKey, user: UserId, row: MatchRow, admin: bool, now: int)
    requires Inv(w) && tid in w.threads && w.threads[tid] == ConfirmRead(key, user, row)
    ensures Inv(Proceed(w, tid, w.threads[tid], admin, now))
  {
    var w' := Proceed(w, tid, w.threads[tid], admin, now);
    ConfirmFacts(w, w', key, user, now);
    assert ThreadOk(w, w.threads[tid]);
    assert AuthorsFirst(w');
    assert InFlight(w'.threads[tid], key);
    StoreStep(w, w', tid);
  }

  lemma SetStatusFacts(w: World, w': World, k: MatchKey, status: Status)
    requires Inv(w) && Issued(w.store, k) && status != Pending && w'.store == SetStatus(w.store, k, status)
    requires w'.posted == w.posted && w'.adminRegistered == w.adminRegistered && w'.adminConfirmed == w.adminConfirmed
    requires k in w.store.matches ==> Justified(w, k)
    ensures StoreOk(w') && Evolves(w, w') && AuthorsFirst(w') && AllJustified(w')
    ensures forall q :: Overdue(w'.store, q) ==> Overdue(w.store, q) && q != k
  {
    hide ThreadsOk, OneRegistrar, NoneLost;
    SetStatusEvolves(w, w', k, status);
    hide StoreOk, Evolves;
  }

  lemma SetStatusEvolves(w: World, w': World, k: MatchKey, status: Status)
    requires StoreOk(w) && status != Pending && w'.store == SetStatus(w.store, k, status)
    requires w'.posted == w.posted && w'.adminRegistered == w.adminRegistered && w'.adminConfirmed == w.adminConfirmed
    ensures StoreOk(w') && Evolves(w, w')
  {
  }

  lemma StepApprove(w: World, tid: ThreadId, admin: bool, now: int)
    requires Inv(w) && tid in w.threads && (w.threads[tid].ApproveAsAdmin? || w.threads[tid].ApproveAsBoth?)
    ensures Inv(Proceed(w, tid, w.threads[tid], admin, now))
  {
    var w', key := Proceed(w, tid, w.threads[tid], admin, now), w.threads[tid].key;
    assert ThreadOk(w, w.threads[tid]);
    SetStatusFacts(w, w', key, Approved);
    StoreStep(w, w', tid);
  }

  lemma StepToggle(w: World, tid: ThreadId, key: MatchKey, row: MatchRow, admin: bool, now: int)
    requires Inv(w) && tid in w.threads && w.threads[tid] == UndoToggle(key, row)
    ensures Inv(Proceed(w, tid, w.threads[tid], admin, now))
  {
    var w' := Proceed(w, tid, w.threads[tid], admin, now);
    assert ThreadOk(w, w.threads[tid]);
    SetStatusFacts(w, w', key, Toggled(row.status));
    hide Inv, StoreOk, AuthorsFirst, AllJustified, Overdue, Evolves;
    UninvolvedStore(w, w', tid);
  }

  lemma DeleteFacts(w: World, w': World, k: MatchKey)
    requires Inv(w) && w'.store == Delete(w.store, k)
    requires w'.posted == w.posted && w'.adminRegistered == w.adminRegistered && w'.adminConfirmed == w.adminConfirmed
    ensures StoreOk(w') && Evolves(w, w') && AuthorsFirst(w') && AllJustified(w')
    ensures forall q :: Overdue(w'.store, q) ==> Overdue(w.store, q)
    ensures k !in w'.store.matches
  {
    hide ThreadsOk, OneRegistrar, NoneLost;
  }

  lemma StepCancel(w: World, tid: ThreadId, key: MatchKey, admin: bool, now: int)
    requires Inv(w) && tid in w.threads && w.threads[tid] == CancelRead(key)
    ensures Inv(Proceed(w, tid, w.threads[tid], admin, now))
  {
    var w' := Proceed(w, tid, w.threads[tid], admin, now);
    DeleteFacts(w, w', key);
    StoreStep(w, w', tid);
  }

  lemma StepExpirySweep(w: World, tid: ThreadId, keys: seq<MatchKey>, admin: bool, now: int)
    requires Inv(w) && tid in w.threads && w.threads[tid] == ExpirySweep(keys)
    ensures Inv(Proceed(w, tid, w.threads[tid], admin, now))
  {
    hide Inv, ThreadOk, Delete;
    if keys == [] || keys[0] !in w.store.matches {
      SweepPasses(w, tid, keys, if keys == [] then Finish(w, tid) else Spawn(w, tid, ExpirySweep(keys[1..])));
    } else {
      SweepDeletes(w, tid, keys, Spawn(w.(store := Delete(w.store, keys[0])), tid, ExpiryDeleted(keys[0], keys[1..])));
    }
  }

  lemma SweepPasses(w: World, tid: ThreadId, keys: seq<MatchKey>, w': World)
    requires Inv(w) && tid in w.threads && w.threads[tid] == ExpirySweep(keys)
    requires w' == if keys == [] then Finish(w, tid) else Spawn(w, tid, ExpirySweep(keys[1..]))
    ensures Inv(w')
  {
    assert ThreadOk(w, w.threads[tid]);
    assert keys != [] ==> forall k :: k in keys[1..] ==> k in keys;
    hide Inv, Issued;
    UninvolvedLocal(w, w', tid);
  }

  lemma SweepDeletes(w: World, tid: ThreadId, keys: seq<MatchKey>, w': World)
    requires Inv(w) && tid in w.threads && w.threads[tid] == ExpirySweep(keys) && keys != []
    requires w' == Spawn(w.(store := Delete(w.store, keys[0])), tid, ExpiryDeleted(keys[0], keys[1..]))
    ensures Inv(w')
  {
    assert ThreadOk(w, w.threads[tid]);
    assert keys[0] in keys && (forall k :: k in keys[1..] ==> k in keys);
    hide Inv, Delete;
    DeleteFacts(w, w', keys[0]);
    hide StoreOk, AuthorsFirst, AllJustified, Overdue;
    UninvolvedStore(w, w', tid);
  }

  lemma DropFacts(w: World, w': World, k: MatchKey)
    requires Inv(w) && k !in w.store.matches && w'.store == DropConfirmations(w.store, k)
    requires w'.posted == w.posted && w'.adminRegistered == w.adminRegistered && w'.adminConfirmed == w.adminConfirmed
    ensures StoreOk(w') && Evolves(w, w') && AuthorsFirst(w') && AllJustified(w')
    ensures forall q :: Overdue(w'.store, q) ==> Overdue(w.store, q)
  {
    hide ThreadsOk, OneRegistrar, NoneLost;
  }

  lemma StepExpiryDeleted(w: World, tid: ThreadId, key: MatchKey, keys: seq<MatchKey>, admin: bool, now: int)
    requires Inv(w) && tid in w.threads && w.threads[tid] == ExpiryDeleted(key, keys)
    ensures Inv(Proceed(w, tid, w.threads[tid], admin, now))
  {
    var w' := Proceed(w, tid, w.threads[tid], admin, now);
    assert ThreadOk(w, w.threads[tid]);
    DropFacts(w, w', key);
    StoreStep(w, w', tid);
  }

  /** Undo requests play no part in approval. */
  lemma UndoRowsFacts(w: World, w': World)
    requires Inv(w) && w'.store == w.store.(undos := w'.store.undos)
    requires w'.posted == w.posted && w'.adminRegistered == w.adminRegistered && w'.adminConfirmed == w.adminConfirmed
    ensures StoreOk(w') && Evolves(w, w') && AuthorsFirst(w') && AllJustified(w')
    ensures forall q :: Overdue(w'.store, q) ==> Overdue(w.store, q)
  {
    hide ThreadsOk, OneRegistrar, NoneLost;
  }

  lemma StepUndoRows(w: World, tid: ThreadId, admin: bool, now: int)
    requires Inv(w) && tid in w.threads
    requires var t := w.threads[tid]; t.UndoWithdraw? || t.UndoInsert? || t.UndoClear? || (t.UndoSweep? && t.rows != [])
    ensures Inv(Proceed(w, tid, w.threads[tid], admin, now))
  {
    var w' := Proceed(w, tid, w.threads[tid], admin, now);
    hide Inv, ThreadOk;
    UndoRowsOnly(w, tid, w.threads[tid], admin, now);
    hide Proceed;
    UndoRowsFacts(w, w');
    hide StoreOk, AuthorsFirst, AllJustified, Overdue, Evolves;
    UninvolvedStore(w, w', tid);
  }

  lemma UndoRowsOnly(w: World, tid: ThreadId, t: Thread, admin: bool, now: int)
    requires Inv(w) && tid in w.threads && w.threads[tid] == t
    requires t.UndoWithdraw? || t.UndoInsert? || t.UndoClear? || (t.UndoSweep? && t.rows != [])
    ensures var w' := Proceed(w, tid, t, admin, now);
            && w' == w.(threads := w'.threads, store := w.store.(undos := w'.store.undos)) && OnlyThread(w, w', tid)
            && Uninvolved(t)
            && (tid in w'.threads ==> ThreadOk(w', w'.threads[tid]) && Uninvolved(w'.threads[tid]))
  {
    assert ThreadOk(w, t);
    hide Inv, UsersOf, WithoutMatch;
  }

  lemma StepConfirmInserted(w: World, tid: ThreadId, admin: bool, now: int)
    requires Inv(w) && tid in w.threads && w.threads[tid].ConfirmInserted?
    ensures Inv(Proceed(w, tid, w.threads[tid], admin, now))
  {
    var w' := Proceed(w, tid, w.threads[tid], admin, now);
    assert ThreadOk(w, w.threads[tid]);
    hide StoreOk, AuthorsFirst, AllJustified, NoneLost, OneRegistrar, ThreadsOk;
    LocalStep(w, w', tid);
  }

  lemma StepUndoReads(w: World, tid: ThreadId, admin: bool, now: int)
    requires Inv(w) && tid in w.threads
    requires var t := w.threads[tid]; t.UndoRead? || t.UndoInserted? || (t.UndoSweep? && t.rows == [])
    ensures Inv(Proceed(w, tid, w.threads[tid], admin, now))
  {
    var w' := Proceed(w, tid, w.threads[tid], admin, now);
    hide Inv, ThreadOk;
    UndoReadsOnly(w, tid, w.threads[tid], admin, now);
    hide Proceed;
    UninvolvedLocal(w, w', tid);
  }

  lemma UndoReadsOnly(w: World, tid: ThreadId, t: Thread, admin: bool, now: int)
    requires Inv(w) && tid in w.threads && w.threads[tid] == t
    requires t.UndoRead? || t.UndoInserted? || (t.UndoSweep? && t.rows == [])
    ensures var w' := Proceed(w, tid, t, admin, now);
            && w' == w.(threads := w'.threads) && OnlyThread(w, w', tid) && Uninvolved(t)
            && (tid in w'.threads ==> ThreadOk(w', w'.threads[tid]) && Uninvolved(w'.threads[tid]))
  {
    assert ThreadOk(w, t);
    hide Inv, UsersOf, Issued, NotPending;
  }

  /** The listing that ends a confirm tap: no approval is dropped. */
  lemma StepConfirmListing(w: World, tid: ThreadId, key: MatchKey, row: MatchRow, admin: bool, now: int)
    requires Inv(w) && tid in w.threads && w.threads[tid] == ConfirmListing(key, row)
    ensures Inv(Proceed(w, tid, w.threads[tid], admin, now))
  {
    var w' := Proceed(w, tid, w.threads[tid], admin, now);
    assert ThreadOk(w, w.threads[tid]);
    UsersOfMember(w.store.confirmations, key, row.player1);
    UsersOfMember(w.store.confirmations, key, row.player2);
    LocalStep(w, w', tid);
  }

  lemma StepPost(w: World, tid: ThreadId, key: MatchKey, admin: bool, now: int)
    requires Inv(w) && tid in w.threads && w.threads[tid] == RegConfirmed(key)
    ensures Inv(Proceed(w, tid, w.threads[tid], admin, now))
  {
    var w' := Proceed(w, tid, w.threads[tid], admin, now);
    assert ThreadOk(w, w.threads[tid]);
    assert Evolves(w, w') && StoreOk(w') && AuthorsFirst(w') && AllJustified(w');
    forall i | i in w'.threads ensures ThreadOk(w', w'.threads[i]) {
      NotYetPosted(w, w.threads[i]);
      ThreadKept(w, w', w.threads[i]);
    }
    RegistrarKept(w, w', tid);
    NoneLostKept(w, w', tid);
  }

  // ---- a handler's first step

  lemma StepRegister(w: World, tid: ThreadId, row: MatchRow, admin: bool)
    requires Inv(w) && tid !in w.threads
    ensures Inv(DoRegister(w, tid, row, admin))
  {
    var w' := DoRegister(w, tid, row, admin);
    if row.player1 != row.player2 {
      RegisterFacts(w, w', tid, row, admin);
      FreshKey(w, MatchKey(row.group, Counter(w.store, row.group) + 1));
      assert Evolves(w, w') by { RegisterEvolves(w, w', tid, row, admin); }
      hide Evolves, ThreadOk, StoreOk, AuthorsFirst, AllJustified, Overdue;
      forall i | i in w'.threads && i != tid ensures ThreadOk(w', w'.threads[i]) {
        NotYetPosted(w, w.threads[i]);
        ThreadKept(w, w', w.threads[i]);
      }
      NoneLostKept(w, w', tid);
    }
  }

  /** An id that has not been issued is mentioned nowhere. */
  lemma FreshKey(w: World, k: MatchKey)
    requires Inv(w) && !Issued(w.store, k)
    ensures k !in w.store.matches && k !in w.posted
    ensures forall i :: i in w.threads && Registering(w.threads[i]) ==> w.threads[i].key != k
    ensures forall r :: r in w.store.confirmations ==> r.match_ != k
  {
    forall i | i in w.threads && Registering(w.threads[i]) ensures w.threads[i].key != k {
      assert ThreadOk(w, w.threads[i]);
    }
  }

  lemma RegisterEvolves(w: World, w': World, tid: ThreadId, row: MatchRow, admin: bool)
    requires Inv(w) && row.player1 != row.player2 && w' == DoRegister(w, tid, row, admin)
    ensures Evolves(w, w')
  {
    hide ThreadsOk, OneRegistrar, NoneLost, AuthorsFirst, AllJustified;
  }

  lemma RegisterStoreOk(w: World, w': World, tid: ThreadId, row: MatchRow, admin: bool)
    requires StoreOk(w) && row.player1 != row.player2 && w' == DoRegister(w, tid, row, admin)
    ensures StoreOk(w')
  {
    AllocateNumbered(w.store, row.(status := if admin then Approved else Pending));
    hide Numbered;
  }

  lemma RegisterFacts(w: World, w': World, tid: ThreadId, row: MatchRow, admin: bool)
    requires Inv(w) && tid !in w.threads && row.player1 != row.player2 && w' == DoRegister(w, tid, row, admin)
    ensures StoreOk(w') && AuthorsFirst(w') && AllJustified(w')
    ensures tid in w'.threads ==> ThreadOk(w', w'.threads[tid])
    ensures forall q :: Overdue(w'.store, q) ==> Overdue(w.store, q)
  {
    FreshKey(w, MatchKey(row.group, Counter(w.store, row.group) + 1));
    RegisterStoreOk(w, w', tid, row, admin);
    RegisterRows(w, w', tid, row, admin);
    hide StoreOk, ThreadsOk, OneRegistrar, NoneLost, AuthorsFirst, AllJustified, Overdue;
  }

  lemma RegisterRows(w: World, w': World, tid: ThreadId, row: MatchRow, admin: bool)
    requires AuthorsFirst(w) && AllJustified(w) && row.player1 != row.player2 && w' == DoRegister(w, tid, row, admin)
    requires forall r :: r in w.store.confirmations ==> r.match_ != MatchKey(row.group, Counter(w.store, row.group) + 1)
    ensures AuthorsFirst(w') && AllJustified(w')
    ensures forall q :: Overdue(w'.store, q) ==> Overdue(w.store, q)
  {
  }

  lemma StepStart(w: World, a: Action)
    requires Inv(w) && a.tid !in w.threads && !a.Advance? && !a.Register?
    ensures Inv(Next(w, a))
  {
    var w' := Next(w, a);
    if w' != w {
      StartedThreadOk(w, a);
      LocalStep(w, w', a.tid);
    }
  }

  lemma StartedThreadOk(w: World, a: Action)
    requires Inv(w) && a.tid !in w.threads && !a.Advance? && !a.Register?
    ensures a.tid in Next(w, a).threads ==> ThreadOk(Next(w, a), Next(w, a).threads[a.tid])
  {
  }

  lemma StepAdvance(w: World, tid: ThreadId, admin: bool, now: int)
    requires Inv(w) && tid in w.threads
    ensures Inv(Proceed(w, tid, w.threads[tid], admin, now))
  {
    hide Inv, Proceed;
    match w.threads[tid]
    case RegInserted(key, author) => StepRegInserted(w, tid, key, author, admin, now);
    case RegConfirmed(key) => StepPost(w, tid, key, admin, now);
    case ConfirmRead(key, user, row) => StepConfirmRead(w, tid, key, user, row, admin, now);
    case ConfirmListing(key, row) => StepConfirmListing(w, tid, key, row, admin, now);
    case ApproveAsAdmin(key) => StepApprove(w, tid, admin, now);
    case ApproveAsBoth(key, row) => StepApprove(w, tid, admin, now);
    case CancelRead(key) => StepCancel(w, tid, key, admin, now);
    case UndoToggle(key, row) => StepToggle(w, tid, key, row, admin, now);
    case ExpirySweep(keys) => StepExpirySweep(w, tid, keys, admin, now);
    case ExpiryDeleted(key, keys) => StepExpiryDeleted(w, tid, key, keys, admin, now);
    case UndoSweep(rows) => if rows == [] { StepUndoReads(w, tid, admin, now); }
        else { StepUndoRows(w, tid, admin, now); }
    case UndoWithdraw(_, _) => StepUndoRows(w, tid, admin, now);
    case UndoInsert(_, _, _, _) => StepUndoRows(w, tid, admin, now);
    case UndoClear(_) => StepUndoRows(w, tid, admin, now);
    case ConfirmInserted(_, _, _) => StepConfirmInserted(w, tid, admin, now);
    case UndoRead(_, _, _, _) => StepUndoReads(w, tid, admin, now);
    case UndoInserted(_, _) => StepUndoReads(w, tid, admin, now);
  }

  lemma NextKeepsInv(w: World, a: Action)
    requires Inv(w)
    ensures Inv(Next(w, a))
  {
    hide Inv, Proceed, DoRegister, DoTapConfirm, DoTapCancel, DoUndo;
    if a.Advance? {
      if a.tid in w.threads { StepAdvance(w, a.tid, a.admin, a.now); }
    } else if a.tid !in w.threads {
      if a.Register? { StepRegister(w, a.tid, a.row, a.admin); } else { StepStart(w, a); }
    }
  }

  lemma {:induction false} RunKeepsInv(actions: seq<Action>)
    ensures Inv(Run(actions))
  {
    if actions != [] {
      RunKeepsInv(actions[..|actions|-1]);
      NextKeepsInv(Run(actions[..|actions|-1]), actions[|actions|-1]);
    }
  }

  /** Stored matches keep their players, and ids are issued once. */
  ghost predicate SamePlayers(s: State, s': State) {
    && (forall k :: Issued(s, k) ==> Issued(s', k))
    && (forall k :: k in s'.matches && Issued(s, k) ==>
          k in s.matches && s'.matches[k].player1 == s.matches[k].player1
          && s'.matches[k].player2 == s.matches[k].player2)
  }

  lemma PlayersKept(w: World, a: Action)
    ensures SamePlayers(w.store, Next(w, a).store)
  {
    hide SamePlayers;
    if a.Advance? {
      if a.tid in w.threads { AdvanceKeeps(w, a.tid, w.threads[a.tid], a.admin, a.now); }
    } else {
      StartKeeps(w, a);
    }
    assert SamePlayers(w.store, w.store) by { Unchanged(w.store); }
    hide Proceed;
  }

  lemma Unchanged(s: State)
    ensures SamePlayers(s, s)
  {
  }

  lemma StartKeeps(w: World, a: Action)
    requires !a.Advance?
    ensures SamePlayers(w.store, Next(w, a).store)
  {
  }

  lemma AdvanceKeeps(w: World, tid: ThreadId, t: Thread, admin: bool, now: int)
    ensures SamePlayers(w.store, Proceed(w, tid, t, admin, now).store)
  {
    hide UsersOf;
  }

  // ---- the theorems

  /** No lost approval: without a confirm handler in flight, no PENDING match has both players' confirmations. */
  lemma NoLostApproval(actions: seq<Action>, k: MatchKey)
    ensures var w := Run(actions);
            !SomeInFlight(w, k) && k in w.store.matches && w.store.matches[k].status == Pending ==>
                !BothConfirmed(w.store, k)
  {
    RunKeepsInv(actions);
    assert Overdue(Run(actions).store, k) ==> SomeInFlight(Run(actions), k);
  }

  /**
   Justified approval: in every interleaving, a stored match that counts or was undone had been registered or
   confirmed by someone who was chat admin at that moment, or carries both players' confirmations.
   */
  lemma JustifiedApproval(actions: seq<Action>, k: MatchKey)
    ensures var w := Run(actions);
            k in w.store.matches && w.store.matches[k].status != Pending ==> Justified(w, k)
  {
    RunKeepsInv(actions);
  }

  /** Stored ids run up to the group's counter, whatever was deleted meanwhile. */
  lemma IdsBelowCounter(actions: seq<Action>, k: MatchKey)
    ensures var w := Run(actions);
            k in w.store.matches ==>
              && w.store.matches[k].Key() == k && 1 <= k.id <= Counter(w.store, k.group)
              && w.store.matches[k].player1 != w.store.matches[k].player2
  {
    RunKeepsInv(actions);
  }

  /** A key that was issued and is no longer stored stays free for ever. */
  lemma {:induction false} NeverReissued(before: seq<Action>, after: seq<Action>, k: MatchKey)
    requires Issued(Run(before).store, k) && k !in Run(before).store.matches
    ensures Issued(Run(before + after).store, k) && k !in Run(before + after).store.matches
  {
    hide Inv, Next;
    if after == [] {
      assert before + after == before;
    } else {
      var front, a := after[..|after|-1], after[|after|-1];
      assert (before + after)[..|before + after|-1] == before + front;
      NeverReissued(before, front, k);
      RunKeepsInv(before + front);
      StaysDeleted(Run(before + front), a, k);
    }
  }

  lemma StaysDeleted(w: World, a: Action, k: MatchKey)
    requires Issued(w.store, k) && k !in w.store.matches
    ensures Issued(Next(w, a).store, k) && k !in Next(w, a).store.matches
  {
    hide Next, Issued;
    PlayersKept(w, a);
  }
}
