/** The lease table that several instances share: its statements, the instance's methods over them, and
    what those mean in terms of instants. */
module Lease {
  import opened Text
  import opened Calendar
  import opened TimeText
  import Registry

  /** A row of the lease table; times are text. */
  datatype Held = Held(owner: string, acquired: string, expires: string)

  type LeaseTable = map<string, Held>

  // ---- the statements ----

  /** DELETE FROM lease WHERE expires_at < now */
  function Evict(t: LeaseTable, now: string): LeaseTable { map n | n in t && !LexLess(t[n].expires, now) :: t[n] }

  /** INSERT OR IGNORE: affects a row exactly when the name is free. */
  function InsertOrIgnore(t: LeaseTable, name: string, row: Held): LeaseTable {
    if name in t then t else t[name := row]
  }

  function DeleteOwned(t: LeaseTable, name: string, owner: string): LeaseTable {
    if name in t && t[name].owner == owner then t - {name} else t
  }

  function Extend(t: LeaseTable, name: string, owner: string, expires: string): LeaseTable {
    if name in t && t[name].owner == owner then t[name := t[name].(expires := expires)] else t
  }

  // ---- the same in instants ----

  datatype Grant = Grant(owner: string, acquired: nat, expires: nat)

  type Grants = map<string, Grant>

  function Stored(g: Grant): Held { Held(g.owner, LeaseText(g.acquired), LeaseText(g.expires)) }

  function StoredAll(gs: Grants): LeaseTable { map n | n in gs :: Stored(gs[n]) }

  function EvictAt(gs: Grants, now: nat): Grants { map n | n in gs && now <= gs[n].expires :: gs[n] }

  function GrantTo(gs: Grants, name: string, g: Grant): Grants { if name in gs then gs else gs[name := g] }

  function Revoke(gs: Grants, name: string, owner: string): Grants {
    if name in gs && gs[name].owner == owner then gs - {name} else gs
  }

  function Prolong(gs: Grants, name: string, owner: string, expires: nat): Grants {
    if name in gs && gs[name].owner == owner then gs[name := gs[name].(expires := expires)] else gs
  }

  /** Every expiry is in the years the fixed-width text covers. */
  ghost predicate Dated(gs: Grants) { forall n :: n in gs ==> FourDigitYear(gs[n].expires) }

  /** `expires_at < ?` on text means expired: the DELETE removes exactly the rows whose expiry the clock
      reading has passed. */
  lemma EvictsExactlyExpired(gs: Grants, now: nat)
    requires Dated(gs) && FourDigitYear(now)
    ensures Evict(StoredAll(gs), LeaseText(now)) == StoredAll(EvictAt(gs, now))
  {
    hide LexLess, LeaseText, FourDigitYear;
    forall n | n in gs
      ensures LexLess(LeaseText(gs[n].expires), LeaseText(now)) <==> gs[n].expires < now
    {
      LeaseTextOrder(gs[n].expires, now);
    }
    var a, b := Evict(StoredAll(gs), LeaseText(now)), StoredAll(EvictAt(gs, now));
    assert a.Keys == b.Keys;
  }

  lemma OtherStatementsAgree(gs: Grants, name: string, g: Grant, owner: string, expires: nat)
    ensures InsertOrIgnore(StoredAll(gs), name, Stored(g)) == StoredAll(GrantTo(gs, name, g))
    ensures DeleteOwned(StoredAll(gs), name, owner) == StoredAll(Revoke(gs, name, owner))
    ensures Extend(StoredAll(gs), name, owner, LeaseText(expires)) == StoredAll(Prolong(gs, name, owner, expires))
  {
    hide LeaseText;
  }

  /** An earlier instant is in range if a later one is. */
  lemma EarlierInRange(a: nat, b: nat)
    requires a <= b && FourDigitYear(b)
    ensures FourDigitYear(a)
  {
    hide CivilDate;
    var x, y := Split(a), Split(b);
    if x.day < y.day {
      DateOrder(CivilDate(x.day), CivilDate(y.day));
    }
  }

  // ---- an instance ----

  /** The database file the instances share; `failures` counts the statements that failed. */
  class LeaseDb {
    var rows: LeaseTable
    ghost var failures: nat

    constructor ()
      ensures rows == map[] && failures == 0
    {
      rows, failures := map[], 0;
    }
  }

  /** One instance.  Its owner name is its own, not the acquisition's; any statement may fail. */
  class Lease {
    const db: LeaseDb
    const ttl: nat
    const owner: string

    constructor (db: LeaseDb, ttl: nat, owner: string)
      ensures this.db == db && this.ttl == ttl && this.owner == owner
    {
      this.db, this.ttl, this.owner := db, ttl, owner;
    }

    /** With the clock read as `now`: evict, then insert.  It succeeds only on a name free after the
        eviction, and always then unless a statement fails; the row is this instance's for `ttl` from that
        reading.  A failure may leave the eviction behind, or even the row, if only its count was lost. */
    method Acquire(name: string, now: nat) returns (tok: Registry.Token?, ok: bool)
      modifies db
      ensures ok ==> name !in Evict(old(db.rows), LeaseText(now))
                     && db.rows == Evict(old(db.rows), LeaseText(now))[name := Stored(Grant(owner, now, now + ttl))]
                     && tok != null && fresh(tok) && tok.name == name
      ensures db.failures == old(db.failures) ==> (ok <==> name !in Evict(old(db.rows), LeaseText(now)))
      ensures !ok ==> tok == null
                      && (db.rows == old(db.rows) || db.rows == Evict(old(db.rows), LeaseText(now))
                          || db.rows == InsertOrIgnore(Evict(old(db.rows), LeaseText(now)), name,
                                                       Stored(Grant(owner, now, now + ttl))))
    {
      hide Evict, LeaseText;
      var fault: bool := *;
      if fault {
        db.failures := db.failures + 1;
        return null, false;
      }
      db.rows := Evict(db.rows, LeaseText(now));
      fault := *;
      if fault {
        db.failures := db.failures + 1;
        return null, false;
      }
      var affected := if name in db.rows then 0 else 1;
      db.rows := InsertOrIgnore(db.rows, name, Held(owner, LeaseText(now), LeaseText(now + ttl)));
      fault := *;
      if fault { db.failures := db.failures + 1; }
      if fault || affected != 1 { return null, false; }
      tok := new Registry.Token(name, 0);
      ok := true;
    }

    /** The owner is checked, the token is not; a failure is swallowed. */
    method Release(t: Registry.Token?)
      modifies db
      ensures db.rows == old(db.rows) || (t != null && db.rows == DeleteOwned(old(db.rows), t.name, owner))
      ensures t != null && db.failures == old(db.failures) ==> db.rows == DeleteOwned(old(db.rows), t.name, owner)
    {
      if t == null { return; }
      var fault: bool := *;
      if fault {
        db.failures := db.failures + 1;
      } else {
        db.rows := DeleteOwned(db.rows, t.name, owner);
      }
    }

    /** A later expiry, as long as the row is this instance's; a failure is swallowed. */
    method Renew(t: Registry.Token?, now: nat)
      modifies db
      ensures db.rows == old(db.rows)
              || (t != null && db.rows == Extend(old(db.rows), t.name, owner, LeaseText(now + ttl)))
      ensures t != null && db.failures == old(db.failures)
              ==> db.rows == Extend(old(db.rows), t.name, owner, LeaseText(now + ttl))
    {
      if t == null { return; }
      var fault: bool := *;
      if fault {
        db.failures := db.failures + 1;
      } else {
        db.rows := Extend(db.rows, t.name, owner, LeaseText(now + ttl));
      }
    }
  }
}
