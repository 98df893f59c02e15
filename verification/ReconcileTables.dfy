/** What one write into the node's tables keeps: unique identifiers, unique names, unique managed remarks. */
module ReconcileTables {
  import opened Basics
  import opened Text
  import opened Registry
  import opened Reconcile

  // ------------------------------------------------------ tasks and hosts

  predicate IsManaged(remark: string) { HasPrefix(remark, MANAGED) }

  /** Rows are stored under their identifier, which was given out, and managed remarks are unique. */
  ghost predicate TableOk<T>(t: Table<T>) {
    && 0 <= t.last
    && (forall k :: k in t.rows ==> t.rows[k].id == k && 0 < k <= t.last)
    && (forall j, k :: j in t.rows && k in t.rows && IsManaged(t.rows[j].remark) && t.rows[j].remark == t.rows[k].remark ==> j == k)
  }

  lemma LookupIs<T>(t: Table<T>, k: Id)
    requires TableOk(t) && k in t.rows && IsManaged(t.rows[k].remark)
    ensures Lookup(t, t.rows[k].remark) == Some(t.rows[k])
  {
  }

  lemma LookupFound<T>(t: Table<T>, remark: string)
    requires TableOk(t) && Lookup(t, remark).Some?
    ensures var row := Lookup(t, remark).value; row.id in t.rows && t.rows[row.id] == row && row.remark == remark
  {
  }

  lemma PutRow<T>(t: Table<T>, remark: string, body: T) returns (id: Id)
    requires TableOk(t)
    ensures id == if Lookup(t, remark).Some? then Lookup(t, remark).value.id else t.last + 1
    ensures Put(t, remark, body).rows == t.rows[id := Row(id, remark, body)]
    ensures id in t.rows ==> t.rows[id].remark == remark
    ensures t.last <= Put(t, remark, body).last && 0 < id <= Put(t, remark, body).last
    ensures id !in t.rows ==> Lookup(t, remark).None?
  {
    id := if Lookup(t, remark).Some? then Lookup(t, remark).value.id else t.last + 1;
    if Lookup(t, remark).Some? {
      LookupFound(t, remark);
    }
  }

  lemma PutKeeps<T>(t: Table<T>, remark: string, body: T)
    requires TableOk(t) && IsManaged(remark)
    ensures TableOk(Put(t, remark, body))
    ensures Lookup(Put(t, remark, body), remark).Some? && Lookup(Put(t, remark, body), remark).value.body == body
  {
    var id := PutRow(t, remark, body);
    var t' := Put(t, remark, body);
    if id in t.rows {
      LookupIs(t, id);
    }
    LookupIs(t', id);
  }

  lemma PutOthers<T>(t: Table<T>, remark: string, body: T, other: string)
    requires TableOk(t) && IsManaged(remark) && IsManaged(other) && other != remark
    ensures Lookup(Put(t, remark, body), other) == Lookup(t, other)
  {
    var id := PutRow(t, remark, body);
    var t' := Put(t, remark, body);
    PutKeeps(t, remark, body);
    if Lookup(t, other).Some? {
      LookupFound(t, other);
      LookupIs(t', Lookup(t, other).value.id);
    } else if Lookup(t', other).Some? {
      LookupFound(t', other);
    }
  }

  /** Removing rows keeps the table sound, and the rows that stay are found as before. */
  lemma FewerRows<T>(t: Table<T>, rows: map<Id, Row<T>>)
    requires TableOk(t) && forall k :: k in rows ==> k in t.rows && rows[k] == t.rows[k]
    ensures TableOk(t.(rows := rows))
  {
  }

  lemma StillFound<T>(t: Table<T>, rows: map<Id, Row<T>>, remark: string)
    requires TableOk(t) && (forall k :: k in rows ==> k in t.rows && rows[k] == t.rows[k])
    requires IsManaged(remark) && Lookup(t, remark).Some? && Lookup(t, remark).value.id in rows
    ensures Lookup(t.(rows := rows), remark) == Lookup(t, remark)
  {
    LookupFound(t, remark);
    FewerRows(t, rows);
    LookupIs(t.(rows := rows), Lookup(t, remark).value.id);
  }

  // --------------------------------------------------------------- clients

  /** The two clients go by a common name. */
  predicate ShareName(a: Client, b: Client) {
    || (a.webUserName != "" && Named(b, a.webUserName))
    || (a.remark != "" && Named(b, a.remark))
  }

  ghost predicate ClientsOk(cs: Clients) {
    && 0 <= cs.last
    && (forall k :: k in cs.rows ==> cs.rows[k].id == k && 0 < k <= cs.last)
    && (forall j, k :: j in cs.rows && k in cs.rows && j != k ==> !ShareName(cs.rows[j], cs.rows[k]))
  }

  lemma NamedIs(cs: Clients, k: Id, name: string)
    requires ClientsOk(cs) && k in cs.rows && name != "" && Named(cs.rows[k], name)
    ensures LookupName(cs, name) == Some(cs.rows[k])
  {
    var found := LookupName(cs, name).value;
    assert found.id != k ==> ShareName(cs.rows[k], found);
  }

  lemma NamedFound(cs: Clients, name: string)
    requires ClientsOk(cs) && LookupName(cs, name).Some?
    ensures var c := LookupName(cs, name).value; c.id in cs.rows && cs.rows[c.id] == c && Named(c, name) && c.id > 0
  {
  }

  /** The row that a user's synchronization writes, and the table with it. */
  lemma UserRow(cs: Clients, u: User) returns (id: Id, rows: map<Id, Client>)
    requires ClientsOk(cs) && u.name != ""
    ensures id == ClientIdOf(cs, u) && 0 < id
    ensures rows == cs.rows[id := Chosen(cs, u).(id := id)]
    ensures Chosen(cs, u).webUserName == u.name && Chosen(cs, u).remark == u.name && Chosen(cs, u).verifyKey == u.verifyKey
    ensures id in cs.rows <==> LookupName(cs, u.name).Some?
    ensures id in cs.rows ==> Named(cs.rows[id], u.name) && rows == InPlace(cs, u).rows && Chosen(cs, u).id == id
    ensures id !in cs.rows ==> InPlace(cs, u) == cs && id == cs.last + 1 && Chosen(cs, u).id == 0
  {
    id := ClientIdOf(cs, u);
    rows := cs.rows[id := Chosen(cs, u).(id := id)];
    if LookupName(cs, u.name).Some? {
      NamedFound(cs, u.name);
    }
  }

  lemma RenamedOk(cs: Clients, id: Id, c: Client, name: string, last: Id)
    requires ClientsOk(cs) && name != "" && c.webUserName == name && c.remark == name && c.id == id
    requires 0 < id <= last && cs.last <= last
    requires forall k :: k in cs.rows && k != id ==> !Named(cs.rows[k], name)
    ensures ClientsOk(Clients(cs.rows[id := c], last))
  {
  }

  /** No other row goes by the name of the user. */
  lemma NoOtherNamed(cs: Clients, u: User, id: Id)
    requires ClientsOk(cs) && u.name != "" && id == ClientIdOf(cs, u)
    ensures forall k :: k in cs.rows && k != id ==> !Named(cs.rows[k], u.name)
  {
    forall k | k in cs.rows && Named(cs.rows[k], u.name)
      ensures k == id
    {
      NamedIs(cs, k, u.name);
    }
  }

  /** What the checks of NewClient find: the name is always free, the key perhaps not. */
  lemma SyncUserOutcome(cs: Clients, u: User, id: Id, rows: map<Id, Client>)
    requires ClientsOk(cs) && u.name != "" && id == ClientIdOf(cs, u) && 0 < id
    requires rows == cs.rows[id := Chosen(cs, u).(id := id)]
    requires Chosen(cs, u).webUserName == u.name
    requires id in cs.rows ==> rows == InPlace(cs, u).rows && Chosen(cs, u).id == id && InPlace(cs, u).last == cs.last
    requires id !in cs.rows ==> InPlace(cs, u) == cs && id == cs.last + 1 && Chosen(cs, u).id == 0
    requires forall k :: k in cs.rows && k != id ==> !Named(cs.rows[k], u.name)
    ensures SyncUser(cs, u).1 != Some(NameDuplicate)
    ensures SyncUser(cs, u).1.None? ==> SyncUser(cs, u).0 == Clients(rows, if id in cs.rows then cs.last else id)
    ensures SyncUser(cs, u).1.Some? ==> SyncUser(cs, u).0 == InPlace(cs, u)
  {
    assert NameFree(InPlace(cs, u).rows, u.name, Chosen(cs, u).id);
  }

  /** Names stay unique whatever the outcome; only a duplicate key can make it fail. */
  lemma SyncUserOk(cs: Clients, u: User)
    requires ClientsOk(cs) && u.name != ""
    ensures ClientsOk(SyncUser(cs, u).0)
    ensures SyncUser(cs, u).1 != Some(NameDuplicate)
    ensures SyncUser(cs, u).1.None? ==>
              SyncUser(cs, u).0.rows == cs.rows[ClientIdOf(cs, u) := Chosen(cs, u).(id := ClientIdOf(cs, u))]
  {
    var id, rows := UserRow(cs, u);
    NoOtherNamed(cs, u, id);
    SyncUserOutcome(cs, u, id, rows);
    RenamedOk(cs, id, Chosen(cs, u).(id := id), u.name, if id in cs.rows then cs.last else id);
  }
}
