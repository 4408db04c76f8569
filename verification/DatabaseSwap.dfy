/** Replacing the active database of a running server, with rollback. */
module DatabaseSwap {
  class Store {
    var isOpen: bool

    constructor ()
      ensures isOpen
    {
      isOpen := true;
    }
  }

  class SessionManager {
    const store: Store

    constructor (store: Store)
      ensures this.store == store
    {
      this.store := store;
    }
  }

  /** `app.state`: the active store, the session manager over it, and what the caches were filled from. */
  class AppState {
    var db: Store
    var sessionManager: SessionManager
    var cached: set<Store>

    constructor (store: Store)
      requires store.isOpen
      ensures Valid() && db == store && fresh(sessionManager) && cached == {}
    {
      db := store;
      sessionManager := new SessionManager(store);
      cached := {};
    }

    /** Requests are served from one open store, with no cached data of another. */
    ghost predicate Valid()
      reads this, db, sessionManager
    {
      db.isOpen && sessionManager.store == db && cached <= {db}
    }

    /** Whether each step of a swap succeeds. Swaps exactly when the new store is healthy, a session manager
        can be built over it, and it is healthy in place; otherwise everything is put back. An error while
        the caches are cleared escapes with the swap done, and cached data of the old store may remain. */
    method SwapActiveDatabase(newStore: Store, ok: SwapSteps) returns (swapped: bool, raised: bool)
      requires Valid() && newStore.isOpen
      modifies this, db, newStore
      ensures swapped == (ok.healthyBefore && ok.managerBuilt && ok.healthyAfter)
      ensures raised == (!swapped || (newStore != old(db) && !ok.cachesCleared))
      ensures swapped ==> db == newStore && fresh(sessionManager) && newStore.isOpen
      ensures swapped && newStore != old(db) ==>
                && cached == (if ok.cachesCleared then {} else old(cached))
                && old(db).isOpen == !(ok.cachesCleared && ok.oldCloses)
      ensures !swapped ==>
                && db == old(db) && sessionManager == old(sessionManager) && cached == old(cached)
                && newStore.isOpen == !ok.newCloses
      ensures Valid() <==>
                if swapped then newStore == old(db) || ok.cachesCleared || old(cached) == {}
                else newStore != old(db) || !ok.newCloses
    {
      var previousStore, previousSessionManager := db, sessionManager;
      var failed := !ok.healthyBefore;
      if !failed {
        db := newStore;
        failed := !ok.managerBuilt;
        if !failed {
          sessionManager := new SessionManager(newStore);
          failed := !ok.healthyAfter;
        }
      }
      if failed {
        db := previousStore;
        sessionManager := previousSessionManager;
        if ok.newCloses { newStore.isOpen := false; }
        return false, true;
      }
      if previousStore != newStore {
        if !ok.cachesCleared { return true, true; }
        cached := {};
        if ok.oldCloses { previousStore.isOpen := false; }
      }
      return true, false;
    }
  }

  datatype SwapSteps = SwapSteps(healthyBefore: bool, managerBuilt: bool, healthyAfter: bool, cachesCleared: bool,
                                 newCloses: bool, oldCloses: bool)
}
