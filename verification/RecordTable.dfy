/** Which decision-record calls succeed and which row and entry each one leaves, field by field. */
module RecordTable {
  import opened Basics
  import opened Store
  import opened Adrs

  /** The lifecycle as a relation. */
  lemma StatusPairs(from: AdrStatus, to: AdrStatus)
    ensures AdrAllowed(from, to) <==>
            (from, to) in {(AdrProposed, AdrAccepted), (AdrProposed, AdrRejected), (AdrAccepted, AdrDeprecated),
                           (AdrAccepted, AdrSuperseded), (AdrDeprecated, AdrSuperseded)}
  {
  }

  /** One record row and one entry; every other table stands. */
  predicate OneRecord(db: Db, db': Db, id: string, row: Adr, action: AdrAction, now: int) {
    db' == db.(adrs := db.adrs[id := row], audit := db.audit + [AdrEntry(id, action, now)])
  }

  lemma ProposeTable(db: Db, id: string, text: AdrText, now: int)
    ensures var r := ProposeAdr(db, id, text, now);
            && (r.Ok? <==> id !in db.adrs && !Blank(id) && !Blank(text.title))
            && (r.Ok? ==> OneRecord(db, r.value, id, Adr(id, text, AdrProposed, 1, None, now, now), AdrCreate, now))
  {
    hide Blank, PutAll;
    OneRow(db.adrs, Adr(id, text, AdrProposed, 1, None, now, now));
  }

  /** Accept and reject take a PROPOSED record, deprecate an ACCEPTED one; only status and time change. */
  lemma StatusTable(db: Db, id: string, now: int)
    requires id in db.adrs ==> db.adrs[id].id == id
    ensures var r := AcceptAdr(db, id, now);
            && (r.Ok? <==> id in db.adrs && db.adrs[id].status.AdrProposed?)
            && (r.Ok? ==> OneRecord(db, r.value, id, db.adrs[id].(status := AdrAccepted, updatedAt := now), AdrAccept, now))
    ensures var r := RejectAdr(db, id, now);
            && (r.Ok? <==> id in db.adrs && db.adrs[id].status.AdrProposed?)
            && (r.Ok? ==> OneRecord(db, r.value, id, db.adrs[id].(status := AdrRejected, updatedAt := now), AdrReject, now))
    ensures var r := DeprecateAdr(db, id, now);
            && (r.Ok? <==> id in db.adrs && db.adrs[id].status.AdrAccepted?)
            && (r.Ok? ==> OneRecord(db, r.value, id, db.adrs[id].(status := AdrDeprecated, updatedAt := now), AdrDeprecate, now))
  {
    hide PutAll;
    if id in db.adrs {
      OneRow(db.adrs, db.adrs[id].(status := AdrAccepted, updatedAt := now));
      OneRow(db.adrs, db.adrs[id].(status := AdrRejected, updatedAt := now));
      OneRow(db.adrs, db.adrs[id].(status := AdrDeprecated, updatedAt := now));
    }
  }

  /** Each field of the text is the given one, or as it was. */
  predicate FieldsAmended(before: AdrText, c: AdrChanges, after: AdrText) {
    && (if c.title.Some? then after.title == c.title.value else after.title == before.title)
    && (if c.context.Some? then after.context == c.context.value else after.context == before.context)
    && (if c.decision.Some? then after.decision == c.decision.value else after.decision == before.decision)
    && (if c.consequences.Some? then after.consequences == c.consequences.value else after.consequences == before.consequences)
    && (if c.related.Some? then after.related == c.related.value else after.related == before.related)
  }

  lemma AmendedFields(text: AdrText, c: AdrChanges)
    ensures FieldsAmended(text, c, Amended(text, c))
    ensures Amended(text, c).title == if c.title.Some? then c.title.value else text.title
  {
  }

  /** An amendment needs a record and a change that leaves it a title; it rewrites the named fields under the next version. */
  lemma AmendTable(db: Db, id: string, c: AdrChanges, now: int)
    requires id in db.adrs ==> db.adrs[id].id == id
    ensures var r := AmendAdr(db, id, c, now);
            && (r.Ok? <==>
                  id in db.adrs
                  && (c.title.Some? || c.context.Some? || c.decision.Some? || c.consequences.Some? || c.related.Some?)
                  && !Blank(if c.title.Some? then c.title.value else db.adrs[id].text.title))
            && (r.Ok? ==>
                  && id in r.value.adrs
                  && var (before, after) := (db.adrs[id], r.value.adrs[id]);
                     && OneRecord(db, r.value, id, after, AdrAmend(before.version + 1), now)
                     && FieldsAmended(before.text, c, after.text) && after.version == before.version + 1
                     && after.status == before.status && after.supersededBy == before.supersededBy && after.id == id
                     && after.createdAt == before.createdAt && after.updatedAt == now)
  {
    hide PutAll, Blank, Amended, FieldsAmended;
    if id in db.adrs {
      AmendedFields(db.adrs[id].text, c);
      var row := db.adrs[id].(text := Amended(db.adrs[id].text, c), version := db.adrs[id].version + 1, updatedAt := now);
      OneRow(db.adrs, row);
    }
  }

  /** A supersession needs a record in force or deprecated and another that is proposed or accepted; one entry for both rows. */
  lemma SupersedeTable(db: Db, id: string, successor: string, now: int)
    requires forall x :: x in {id, successor} && x in db.adrs ==> db.adrs[x].id == x
    ensures var r := SupersedeAdr(db, id, successor, now);
            && (r.Ok? <==>
                  && id in db.adrs && successor in db.adrs && id != successor && db.adrs[id].supersededBy.None?
                  && (db.adrs[id].status.AdrAccepted? || db.adrs[id].status.AdrDeprecated?)
                  && (db.adrs[successor].status.AdrProposed? || db.adrs[successor].status.AdrAccepted?))
            && (r.Ok? ==>
                  r.value == db.(
                    adrs := db.adrs[id := db.adrs[id].(status := AdrSuperseded, supersededBy := Some(successor), updatedAt := now)]
                      [successor := if db.adrs[successor].status.AdrProposed?
                                    then db.adrs[successor].(status := AdrAccepted, updatedAt := now) else db.adrs[successor]],
                    audit := db.audit + [AdrEntry(id, AdrSupersede(successor), now)]))
  {
    hide PutAll;
    if id in db.adrs && successor in db.adrs {
      TwoRows(db.adrs, db.adrs[id].(status := AdrSuperseded, supersededBy := Some(successor), updatedAt := now),
              if db.adrs[successor].status.AdrProposed? then db.adrs[successor].(status := AdrAccepted, updatedAt := now)
              else db.adrs[successor]);
    }
  }
}
