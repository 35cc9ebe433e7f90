/** Which rows of a page sit under a user-archived ledger. */
module ArchiveFilter {
  import opened OpLog

  /** The three mirror tables as the lookups see them. */
  datatype Tables = Tables(
    ledgerArchived: map<string, bool>,
    contactLedger: map<string, string>,
    transactionContact: map<string, string>)

  predicate InArchivedLedger(t: Tables, contactId: string) {
    && contactId in t.contactLedger
    && t.contactLedger[contactId] != ""
    && t.contactLedger[contactId] in t.ledgerArchived
    && t.ledgerArchived[t.contactLedger[contactId]]
  }

  /** The rule for one op: its contact, or its transaction's contact, is under an archived ledger. */
  predicate RowArchived(t: Tables, row: LogRow) {
    if row.entityType == "contact" then InArchivedLedger(t, row.entityId)
    else row.entityType == "transaction" && row.entityId in t.transactionContact
         && InArchivedLedger(t, t.transactionContact[row.entityId])
  }

  function ArchivedIds(t: Tables, rows: seq<LogRow>): set<string> {
    set i | 0 <= i < |rows| && RowArchived(t, rows[i]) :: rows[i].entityId
  }

  function IdsOfType(rows: seq<LogRow>, entityType: string): set<string> {
    set i | 0 <= i < |rows| && rows[i].entityType == entityType :: rows[i].entityId
  }

  /** The archived ids, gathered by kind instead of by row. */
  lemma ByKind(t: Tables, rows: seq<LogRow>)
    ensures ArchivedIds(t, rows)
         == (set c | c in IdsOfType(rows, "contact") && InArchivedLedger(t, c))
          + (set x | x in IdsOfType(rows, "transaction") && x in t.transactionContact
                     && InArchivedLedger(t, t.transactionContact[x]))
  {
  }

  method CollectIds(rows: seq<LogRow>) returns (contactIds: set<string>, transactionIds: set<string>)
    ensures contactIds == IdsOfType(rows, "contact")
    ensures transactionIds == IdsOfType(rows, "transaction")
  {
    contactIds, transactionIds := {}, {};
    for i := 0 to |rows|
      invariant contactIds == IdsOfType(rows[..i], "contact")
      invariant transactionIds == IdsOfType(rows[..i], "transaction")
    {
      assert forall ty :: IdsOfType(rows[..i + 1], ty)
                       == IdsOfType(rows[..i], ty) + if rows[i].entityType == ty then {rows[i].entityId} else {};
      if rows[i].entityType == "contact" {
        contactIds := contactIds + {rows[i].entityId};
      } else if rows[i].entityType == "transaction" {
        transactionIds := transactionIds + {rows[i].entityId};
      }
    }
    assert rows[..|rows|] == rows;
  }

  /** The check both marking loops make on one contact. */
  predicate Hit(ledgerByContact: map<string, string>, archivedLedgerIds: set<string>, contactId: string) {
    contactId in ledgerByContact && ledgerByContact[contactId] != "" && ledgerByContact[contactId] in archivedLedgerIds
  }

  method MarkContacts(contactIds: set<string>, ledgerByContact: map<string, string>, archivedLedgerIds: set<string>)
    returns (archived: set<string>)
    ensures archived == set c | c in contactIds && Hit(ledgerByContact, archivedLedgerIds, c)
  {
    archived := {};
    var left := contactIds;
    while left != {}
      invariant left <= contactIds
      invariant archived == set c | c in contactIds - left && Hit(ledgerByContact, archivedLedgerIds, c)
    {
      var c :| c in left;
      left := left - {c};
      if Hit(ledgerByContact, archivedLedgerIds, c) {
        archived := archived + {c};
      }
    }
  }

  method MarkTransactions(contactIdByTransaction: map<string, string>, ledgerByContact: map<string, string>,
                          archivedLedgerIds: set<string>)
    returns (archived: set<string>)
    ensures archived == set x | x in contactIdByTransaction
                                && Hit(ledgerByContact, archivedLedgerIds, contactIdByTransaction[x])
  {
    archived := {};
    var left := contactIdByTransaction.Keys;
    while left != {}
      invariant left <= contactIdByTransaction.Keys
      invariant archived == set x | x in contactIdByTransaction && x !in left
                                    && Hit(ledgerByContact, archivedLedgerIds, contactIdByTransaction[x])
    {
      var x :| x in left;
      left := left - {x};
      if Hit(ledgerByContact, archivedLedgerIds, contactIdByTransaction[x]) {
        archived := archived + {x};
      }
    }
  }

  function ArchivedLedgers(t: Tables): set<string> {
    set l | l in t.ledgerArchived && t.ledgerArchived[l]
  }

  /** The transactions table restricted to the ids asked for. */
  function ContactsOf(t: Tables, transactionIds: set<string>): map<string, string> {
    map x | x in transactionIds && x in t.transactionContact :: t.transactionContact[x]
  }

  function LedgersOf(t: Tables, contactIds: set<string>): map<string, string> {
    map c | c in contactIds && c in t.contactLedger :: t.contactLedger[c]
  }

  lemma NoArchivedLedgers(t: Tables, rows: seq<LogRow>)
    requires ArchivedLedgers(t) == {}
    ensures ArchivedIds(t, rows) == {}
  {
    assert forall c :: InArchivedLedger(t, c) ==> t.contactLedger[c] in ArchivedLedgers(t);
  }

  lemma NoValuesNoKeys(m: map<string, string>)
    ensures m.Values == {} ==> m == map[]
  {
    if m != map[] {
      var x :| x in m;
      assert m[x] in m.Values;
    }
  }

  lemma NothingToLookUp(t: Tables, rows: seq<LogRow>)
    requires IdsOfType(rows, "contact") == {} && ContactsOf(t, IdsOfType(rows, "transaction")) == map[]
    ensures ArchivedIds(t, rows) == {}
  {
    ByKind(t, rows);
    assert forall x :: x in IdsOfType(rows, "transaction") && x in t.transactionContact
             ==> x in ContactsOf(t, IdsOfType(rows, "transaction"));
  }

  lemma LookupDecides(t: Tables, rows: seq<LogRow>, lookupIds: set<string>)
    requires IdsOfType(rows, "contact") <= lookupIds
    requires ContactsOf(t, IdsOfType(rows, "transaction")).Values <= lookupIds
    ensures var byTransaction := ContactsOf(t, IdsOfType(rows, "transaction"));
            ArchivedIds(t, rows) ==
            (set c | c in IdsOfType(rows, "contact") && Hit(LedgersOf(t, lookupIds), ArchivedLedgers(t), c))
            + (set x | x in byTransaction && Hit(LedgersOf(t, lookupIds), ArchivedLedgers(t), byTransaction[x]))
  {
    ByKind(t, rows);
    var byTransaction := ContactsOf(t, IdsOfType(rows, "transaction"));
    assert forall c :: c in lookupIds
             ==> (InArchivedLedger(t, c) <==> Hit(LedgersOf(t, lookupIds), ArchivedLedgers(t), c));
    assert forall x :: x in byTransaction ==> byTransaction[x] in byTransaction.Values;
  }

  /** Three bulk lookups, with early returns, compute the per-row rule. */
  method ResolveArchivedEntityIds(t: Tables, rows: seq<LogRow>) returns (archived: set<string>)
    ensures archived == ArchivedIds(t, rows)
  {
    var contactIds, transactionIds := CollectIds(rows);
    if contactIds == {} && transactionIds == {} {
      NothingToLookUp(t, rows);
      return {};
    }

    var archivedLedgerIds := ArchivedLedgers(t);
    if archivedLedgerIds == {} {
      NoArchivedLedgers(t, rows);
      return {};
    }

    var contactLookupIds := contactIds;
    var contactIdByTransaction: map<string, string> := map[];
    if transactionIds != {} {
      contactIdByTransaction := ContactsOf(t, transactionIds);
      contactLookupIds := contactLookupIds + contactIdByTransaction.Values;
    }
    if contactLookupIds == {} {
      NoValuesNoKeys(contactIdByTransaction);
      NothingToLookUp(t, rows);
      return {};
    }

    var ledgerByContact := LedgersOf(t, contactLookupIds);
    var contacts := MarkContacts(contactIds, ledgerByContact, archivedLedgerIds);
    var transactions := MarkTransactions(contactIdByTransaction, ledgerByContact, archivedLedgerIds);
    LookupDecides(t, rows, contactLookupIds);
    archived := contacts + transactions;
  }

  ghost predicate IdsUniqueAcrossTypes(rows: seq<LogRow>) {
    forall i, j :: 0 <= i < |rows| && 0 <= j < |rows| && rows[i].entityId == rows[j].entityId
      ==> rows[i].entityType == rows[j].entityType
  }

  /**
   * With ids unique across entity types an op is withheld exactly by its own rule,
   * whatever else is on the page; in particular a ledger op never is.
   */
  lemma BulkIsPerRow(t: Tables, rows: seq<LogRow>, i: nat)
    requires IdsUniqueAcrossTypes(rows) && i < |rows|
    ensures rows[i].entityId in ArchivedIds(t, rows) <==> RowArchived(t, rows[i])
    ensures rows[i].entityType == "ledger" ==> rows[i].entityId !in ArchivedIds(t, rows)
  {
    if rows[i].entityId in ArchivedIds(t, rows) {
      var j :| 0 <= j < |rows| && RowArchived(t, rows[j]) && rows[j].entityId == rows[i].entityId;
      assert rows[i].entityType == rows[j].entityType;
    }
  }

  /** The ledger is there and its owner has archived it. */
  predicate LedgerArchived(t: Tables, ledger: string) {
    ledger != "" && ledger in t.ledgerArchived && t.ledgerArchived[ledger] == true
  }

  /** An op is withheld exactly when it is of a contact in an archived ledger, or of a transaction of one. */
  lemma RowArchivedIff(t: Tables, row: LogRow)
    ensures RowArchived(t, row)
       <==> exists contact ::
              && contact in t.contactLedger && LedgerArchived(t, t.contactLedger[contact])
              && (|| (row.entityType == "contact" && row.entityId == contact)
                  || (row.entityType == "transaction" && row.entityId in t.transactionContact
                      && t.transactionContact[row.entityId] == contact))
  {
  }
}
