/** What an edit amounts to: creating the row with the edited fields from the start. */
module DeltaMerge {
  import opened Common
  import opened Deltas

  /** The creation's deltas with the edit's non-null fields put over them. */
  function Merged(d: Deltas, e: Deltas): Deltas {
    d + map f | f in e && !e[f].Null? :: e[f]
  }

  lemma MergedGet(d: Deltas, e: Deltas, f: string)
    ensures Get(Merged(d, e), f) == OrElse(Get(e, f), Get(d, f))
  {
  }

  function MergedLedger(f: LedgerFields, g: LedgerFields): LedgerFields {
    LedgerFields(OrElse(g.name, f.name), OrElse(g.kind, f.kind), OrElse(g.icon, f.icon), OrElse(g.color, f.color),
                 OrElse(g.sortOrder, f.sortOrder), OrElse(g.isUserArchived, f.isUserArchived),
                 OrElse(g.isDeleted, f.isDeleted), OrElse(g.isArchived, f.isArchived),
                 OrElse(g.carryForwardTargetLedgerId, f.carryForwardTargetLedgerId))
  }

  function MergedContact(f: ContactFields, g: ContactFields): ContactFields {
    ContactFields(OrElse(g.ledgerId, f.ledgerId), OrElse(g.name, f.name), OrElse(g.phone, f.phone),
                  OrElse(g.notes, f.notes), OrElse(g.creditLimit, f.creditLimit),
                  OrElse(g.creditCurrency, f.creditCurrency), OrElse(g.avatarColor, f.avatarColor),
                  OrElse(g.isDeleted, f.isDeleted), OrElse(g.isArchived, f.isArchived))
  }

  function MergedTransaction(f: TransactionFields, g: TransactionFields): TransactionFields {
    TransactionFields(OrElse(g.contactId, f.contactId), OrElse(g.kind, f.kind), OrElse(g.amount, f.amount),
                      OrElse(g.currency, f.currency), OrElse(g.description, f.description),
                      OrElse(g.itemName, f.itemName), OrElse(g.transactionDate, f.transactionDate),
                      OrElse(g.attachmentPath, f.attachmentPath), OrElse(g.isDeleted, f.isDeleted),
                      OrElse(g.isArchived, f.isArchived))
  }

  lemma MergedLedgerFields(d: Deltas, e: Deltas)
    ensures LedgerFieldsOf(Merged(d, e)) == MergedLedger(LedgerFieldsOf(d), LedgerFieldsOf(e))
  {
    forall f ensures Get(Merged(d, e), f) == OrElse(Get(e, f), Get(d, f)) { MergedGet(d, e, f); }
    hide Merged, Get, OrElse;
  }

  lemma MergedContactFields(d: Deltas, e: Deltas)
    ensures ContactFieldsOf(Merged(d, e)) == MergedContact(ContactFieldsOf(d), ContactFieldsOf(e))
  {
    forall f ensures Get(Merged(d, e), f) == OrElse(Get(e, f), Get(d, f)) { MergedGet(d, e, f); }
    hide Merged, Get, OrElse;
  }

  lemma MergedTransactionFields(d: Deltas, e: Deltas)
    ensures TransactionFieldsOf(Merged(d, e)) == MergedTransaction(TransactionFieldsOf(d), TransactionFieldsOf(e))
  {
    forall f ensures Get(Merged(d, e), f) == OrElse(Get(e, f), Get(d, f)) { MergedGet(d, e, f); }
    hide Merged, Get, OrElse;
  }

  // ---- rows, one column at a time ------------------------------------------

  function Look(cols: Cols, c: Column): Option<Cell> {
    if c in cols then Some(cols[c]) else None
  }

  function Over(later: Option<Cell>, earlier: Option<Cell>): Option<Cell> {
    if later.Some? then later else earlier
  }

  /** The row after creation and edit has, in every column a creation writes, what `whole` has. */
  predicate SameRow(whole: Result<Cols, ValidationError>, created: Cols, edit: Cols) {
    whole.Ok? && forall c :: c in whole.value ==> Look(created + edit, c) == Look(whole.value, c)
  }

  lemma LookSum(a: Cols, b: Cols, k: Column)
    ensures Look(a + b, k) == Over(Look(b, k), Look(a, k))
  {
  }

  // ---- ledgers -------------------------------------------------------------

  predicate TypeKept(env: Env, f: LedgerFields, g: LedgerFields) {
    TextOf(env, OrElse(g.kind, OrElse(f.kind, Str("personal")))) == TextOf(env, OrElse(f.kind, Str("personal")))
  }

  lemma LedgerColumn(env: Env, f: LedgerFields, g: LedgerFields, t0: int, t1: int, k: Column)
    requires k in CreateLedger(env, MergedLedger(f, g), t1)
    ensures Look(CreateLedger(env, f, t0) + UpdateLedger(env, g, t1), k)
            == Look(CreateLedger(env, MergedLedger(f, g), t1), k)
            <==> (k == Type ==> TypeKept(env, f, g))
  {
    LookSum(CreateLedger(env, f, t0), UpdateLedger(env, g, t1), k);
  }

  lemma LedgerEdit(env: Env, f: LedgerFields, g: LedgerFields, t0: int, t1: int)
    ensures SameRow(Ok(CreateLedger(env, MergedLedger(f, g), t1)), CreateLedger(env, f, t0), UpdateLedger(env, g, t1))
            <==> TypeKept(env, f, g)
  {
    var whole := CreateLedger(env, MergedLedger(f, g), t1);
    assert Type in whole;
    hide Look, CreateLedger, UpdateLedger, MergedLedger, TypeKept;
    forall k | k in whole
      ensures Look(CreateLedger(env, f, t0) + UpdateLedger(env, g, t1), k) == Look(whole, k)
              <==> (k == Type ==> TypeKept(env, f, g))
    {
      LedgerColumn(env, f, g, t0, t1, k);
    }
  }

  // ---- contacts ------------------------------------------------------------

  predicate LinkKept(created: Json, edited: Json, field: string) {
    edited.Null? || RequireString(edited, field, ENTITY_ID_MAX_LENGTH)
      == RequireString(created, field, ENTITY_ID_MAX_LENGTH)
  }

  lemma ContactMergeOk(env: Env, f: ContactFields, g: ContactFields, t0: int, t1: int)
    requires CreateContact(env, f, t0).Ok? && UpdateContact(env, g, t1).Ok?
    ensures LinkKept(f.ledgerId, g.ledgerId, "ledgerId") ==> CreateContact(env, MergedContact(f, g), t1).Ok?
  {
    hide RequireString, IsValidMoneyAmount;
  }

  lemma ContactCreated(env: Env, f: ContactFields, t: int, k: Column)
    requires CreateContact(env, f, t).Ok?
    ensures var (id, limit) :=
            (RequireString(f.ledgerId, "ledgerId", ENTITY_ID_MAX_LENGTH), OptionalMoney(f.creditLimit, "creditLimit"));
            id.Ok? && limit.Ok? && Look(CreateContact(env, f, t).value, k)
              == ContactRow(env, f, id.value, limit.value, t, k)
  {
    hide RequireString, OptionalMoney, ContactRow;
  }

  lemma ContactPatched(env: Env, f: ContactFields, t: int, k: Column)
    requires UpdateContact(env, f, t).Ok?
    ensures var limit := OptionalMoney(f.creditLimit, "creditLimit");
            limit.Ok? && Look(UpdateContact(env, f, t).value, k) == ContactPatch(env, f, limit.value, t, k)
  {
    hide OptionalMoney, ContactPatch;
  }

  lemma ContactColumn(env: Env, f: ContactFields, g: ContactFields, t0: int, t1: int, k: Column)
    requires CreateContact(env, f, t0).Ok? && UpdateContact(env, g, t1).Ok?
    requires CreateContact(env, MergedContact(f, g), t1).Ok? && k in CreateContact(env, MergedContact(f, g), t1).value
    ensures Look(CreateContact(env, f, t0).value + UpdateContact(env, g, t1).value, k)
            == Look(CreateContact(env, MergedContact(f, g), t1).value, k)
            <==> (k == LedgerId ==> LinkKept(f.ledgerId, g.ledgerId, "ledgerId"))
  {
    var merged := MergedContact(f, g);
    LookSum(CreateContact(env, f, t0).value, UpdateContact(env, g, t1).value, k);
    ContactCreated(env, f, t0, k);
    ContactCreated(env, merged, t1, k);
    ContactPatched(env, g, t1, k);
    assert Look(CreateContact(env, merged, t1).value, k).Some?;
    hide CreateContact, UpdateContact, Look, RequireString, IsValidMoneyAmount;
  }

  lemma ContactEdit(env: Env, f: ContactFields, g: ContactFields, t0: int, t1: int)
    requires CreateContact(env, f, t0).Ok? && UpdateContact(env, g, t1).Ok?
    ensures SameRow(CreateContact(env, MergedContact(f, g), t1), CreateContact(env, f, t0).value,
                    UpdateContact(env, g, t1).value)
            <==> LinkKept(f.ledgerId, g.ledgerId, "ledgerId")
  {
    var (whole, created, edit) :=
        (CreateContact(env, MergedContact(f, g), t1), CreateContact(env, f, t0).value, UpdateContact(env, g, t1).value);
    ContactMergeOk(env, f, g, t0, t1);
    assert whole.Ok? ==> LedgerId in whole.value;
    hide Look, CreateContact, UpdateContact, MergedContact, LinkKept;
    if whole.Ok? {
      forall k | k in whole.value
        ensures Look(created + edit, k) == Look(whole.value, k)
                <==> (k == LedgerId ==> LinkKept(f.ledgerId, g.ledgerId, "ledgerId"))
      {
        ContactColumn(env, f, g, t0, t1, k);
      }
    }
  }

  // ---- transactions --------------------------------------------------------

  lemma TransactionMergeOk(env: Env, f: TransactionFields, g: TransactionFields, t0: int, t1: int)
    requires CreateTransaction(env, f, t0).Ok? && UpdateTransaction(env, g, t1).Ok?
    ensures LinkKept(f.contactId, g.contactId, "contactId") ==> CreateTransaction(env, MergedTransaction(f, g), t1).Ok?
  {
    hide RequireString, IsValidMoneyAmount, ParseInstant;
  }

  predicate TransactionColumnKept(env: Env, f: TransactionFields, g: TransactionFields, t0: int, t1: int, k: Column) {
    match k
    case ContactId => LinkKept(f.contactId, g.contactId, "contactId")
    case AttachmentPath => g.attachmentPath.Null?
      || OptionalText(env, g.attachmentPath) == OptionalText(env, f.attachmentPath)
    case TransactionDate => g.transactionDate.Null? && f.transactionDate.Null? ==> t0 == t1
    case _ => true
  }

  lemma TransactionCreated(env: Env, f: TransactionFields, t: int, k: Column)
    requires CreateTransaction(env, f, t).Ok?
    ensures var (id, amount) :=
            (RequireString(f.contactId, "contactId", ENTITY_ID_MAX_LENGTH), RequireMoney(f.amount, "amount"));
            var when := DateOf(env, f.transactionDate, t);
            && id.Ok? && amount.Ok? && when.Ok?
            && Look(CreateTransaction(env, f, t).value, k)
              == TransactionRow(env, f, id.value, amount.value, when.value, t, k)
  {
    hide RequireString, RequireMoney, DateOf, TransactionRow;
  }

  lemma TransactionPatched(env: Env, f: TransactionFields, t: int, k: Column)
    requires UpdateTransaction(env, f, t).Ok?
    ensures var (amount, when) := (OptionalMoney(f.amount, "amount"), DateOf(env, f.transactionDate, t));
            && amount.Ok? && when.Ok?
            && Look(UpdateTransaction(env, f, t).value, k) == TransactionPatch(env, f, amount.value, when.value, t, k)
  {
    hide OptionalMoney, DateOf, TransactionPatch;
  }

  lemma TransactionColumn(env: Env, f: TransactionFields, g: TransactionFields, t0: int, t1: int, k: Column)
    requires CreateTransaction(env, f, t0).Ok? && UpdateTransaction(env, g, t1).Ok?
    requires CreateTransaction(env, MergedTransaction(f, g), t1).Ok?
             && k in CreateTransaction(env, MergedTransaction(f, g), t1).value
    ensures (Look(CreateTransaction(env, f, t0).value + UpdateTransaction(env, g, t1).value, k)
             == Look(CreateTransaction(env, MergedTransaction(f, g), t1).value, k))
               <==> TransactionColumnKept(env, f, g, t0, t1, k)
  {
    var merged := MergedTransaction(f, g);
    LookSum(CreateTransaction(env, f, t0).value, UpdateTransaction(env, g, t1).value, k);
    TransactionCreated(env, f, t0, k);
    TransactionCreated(env, merged, t1, k);
    TransactionPatched(env, g, t1, k);
    assert Look(CreateTransaction(env, merged, t1).value, k).Some?;
    hide CreateTransaction, UpdateTransaction, Look, RequireString, IsValidMoneyAmount, ParseInstant;
  }

  predicate AttachmentAndDateKept(env: Env, f: TransactionFields, g: TransactionFields, created: int, edited: int) {
    && (g.attachmentPath.Null? || OptionalText(env, g.attachmentPath) == OptionalText(env, f.attachmentPath))
    && (g.transactionDate.Null? && f.transactionDate.Null? ==> created == edited)
  }

  lemma TransactionHas(env: Env, f: TransactionFields, t: int)
    requires CreateTransaction(env, f, t).Ok?
    ensures var cols := CreateTransaction(env, f, t).value;
            ContactId in cols && AttachmentPath in cols && TransactionDate in cols
  {
    hide RequireString, RequireMoney, ParseInstant;
  }

  /** Every column is as in `whole` exactly when the three that an edit may miss are kept. */
  lemma AllColumnsKept(env: Env, whole: Cols, both: Cols, f: TransactionFields, g: TransactionFields, t0: int, t1: int)
    requires ContactId in whole && AttachmentPath in whole && TransactionDate in whole
    requires forall k :: k in whole
               ==> (Look(both, k) == Look(whole, k) <==> TransactionColumnKept(env, f, g, t0, t1, k))
    ensures (forall k :: k in whole ==> Look(both, k) == Look(whole, k))
            <==> LinkKept(f.contactId, g.contactId, "contactId") && AttachmentAndDateKept(env, f, g, t0, t1)
  {
    hide Look, LinkKept;
    assert TransactionColumnKept(env, f, g, t0, t1, ContactId) <==> LinkKept(f.contactId, g.contactId, "contactId");
    assert TransactionColumnKept(env, f, g, t0, t1, AttachmentPath)
           && TransactionColumnKept(env, f, g, t0, t1, TransactionDate)
           <==> AttachmentAndDateKept(env, f, g, t0, t1);
  }

  lemma TransactionEdit(env: Env, f: TransactionFields, g: TransactionFields, t0: int, t1: int)
    requires CreateTransaction(env, f, t0).Ok? && UpdateTransaction(env, g, t1).Ok?
    ensures SameRow(CreateTransaction(env, MergedTransaction(f, g), t1), CreateTransaction(env, f, t0).value,
                    UpdateTransaction(env, g, t1).value)
            <==> LinkKept(f.contactId, g.contactId, "contactId") && AttachmentAndDateKept(env, f, g, t0, t1)
  {
    hide Look, CreateTransaction, UpdateTransaction, MergedTransaction, LinkKept, TransactionColumnKept,
      AttachmentAndDateKept;
    var (whole, created, edit) :=
        (CreateTransaction(env, MergedTransaction(f, g), t1), CreateTransaction(env, f, t0).value,
                                   UpdateTransaction(env, g, t1).value);
    TransactionMergeOk(env, f, g, t0, t1);
    if whole.Ok? {
      forall k | k in whole.value
        ensures Look(created + edit, k) == Look(whole.value, k) <==> TransactionColumnKept(env, f, g, t0, t1, k)
      {
        TransactionColumn(env, f, g, t0, t1, k);
      }
      TransactionHas(env, MergedTransaction(f, g), t1);
      AllColumnsKept(env, whole.value, created + edit, f, g, t0, t1);
    }
  }

  // ---- all three -----------------------------------------------------------

  /** What an edit cannot change, is not asked to change. */
  predicate EditsOnlyEditable(env: Env, entityType: string, d: Deltas, e: Deltas, created: int, edited: int) {
    if entityType == "ledger" then TypeKept(env, LedgerFieldsOf(d), LedgerFieldsOf(e))
    else if entityType == "contact" then LinkKept(Get(d, "ledgerId"), Get(e, "ledgerId"), "ledgerId")
    else
      && LinkKept(Get(d, "contactId"), Get(e, "contactId"), "contactId")
      && AttachmentAndDateKept(env, TransactionFieldsOf(d), TransactionFieldsOf(e), created, edited)
  }

  /**
   * A CREATE and then an UPDATE leave the row that one CREATE with the merged
   * deltas would leave, exactly when the UPDATE asks for no change it cannot make: a
   * ledger's type, the ledger of a contact, the contact or attachment of a
   * transaction. An undated transaction also keeps the time of its creation.
   */
  lemma EditIsCreateIff(env: Env, entityType: string, d: Deltas, e: Deltas, t0: int, t1: int)
    requires IsSyncableEntityType(entityType)
    requires CreateCols(env, entityType, d, t0).Ok? && UpdateCols(env, entityType, e, t1).Ok?
    ensures SameRow(CreateCols(env, entityType, Merged(d, e), t1),
                    CreateCols(env, entityType, d, t0).value, UpdateCols(env, entityType, e, t1).value)
            <==> EditsOnlyEditable(env, entityType, d, e, t0, t1)
  {
    hide CreateLedger, CreateContact, CreateTransaction, UpdateLedger, UpdateContact, UpdateTransaction, SameRow,
      Merged, Get,
         TypeKept, LinkKept, AttachmentAndDateKept;
    if entityType == "ledger" {
      MergedLedgerFields(d, e);
      LedgerEdit(env, LedgerFieldsOf(d), LedgerFieldsOf(e), t0, t1);
    } else if entityType == "contact" {
      MergedContactFields(d, e);
      ContactEdit(env, ContactFieldsOf(d), ContactFieldsOf(e), t0, t1);
    } else {
      MergedTransactionFields(d, e);
      TransactionEdit(env, TransactionFieldsOf(d), TransactionFieldsOf(e), t0, t1);
    }
  }
}
