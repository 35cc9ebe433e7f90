/**
 * What each verb of a pushed op does to the row it names: the tables of verbs and
 * columns, written out apart from the code that computes them.
 */
module VerbTable {
  import opened Common
  import opened Deltas
  import opened Projection
  import Intake

  /** Where a column's new value comes from. */
  datatype Rule =
    | Untouched
    | Stamped
    | Set(flag: bool)
    | TextField(field: string)
    | TextOr(field: string, default: string)
    | TextOrNull(field: string)
    | NumberField(field: string)
    | NumberOrZero(field: string)
    | FlagField(field: string)
    | MoneyField(field: string)
    | MoneyOrNull(field: string)
    | LinkField(field: string)
    | DateField(field: string)
    | DateOrStamp(field: string)

  /** Editing verbs: UPDATE, and the four that are an UPDATE with one flag set. */
  predicate Edits(verb: string) {
    verb in {"UPDATE", "USER_ARCHIVE", "USER_UNARCHIVE", "RESTORE", "ACTIVATE_ARCHIVED"}
  }

  /** The flag a verb sets, and to what. */
  function ItsFlag(verb: string): Option<(Column, bool)> {
    if verb == "USER_ARCHIVE" then Some((IsUserArchived, true))
    else if verb == "USER_UNARCHIVE" then Some((IsUserArchived, false))
    else if verb == "RESTORE" then Some((IsDeleted, false))
    else if verb == "ACTIVATE_ARCHIVED" then Some((IsArchived, false))
    else None
  }

  /** A flag is set by its verb, and otherwise comes from its field. */
  function FlagRule(verb: string, c: Column, field: string): Rule {
    if ItsFlag(verb).Some? && ItsFlag(verb).value.0 == c then Set(ItsFlag(verb).value.1) else FlagField(field)
  }

  function EditRule(table: Table, verb: string, c: Column): Rule {
    match c
    case ServerUpdatedAt => Stamped
    case IsUserArchived => if table == Ledgers then FlagRule(verb, c, "isUserArchived") else Untouched
    case IsDeleted => FlagRule(verb, c, "isDeleted")
    case IsArchived => FlagRule(verb, c, "isArchived")
    case CarryForwardTargetLedgerId =>
      if table == Ledgers then TextField("carryForwardTargetLedgerId") else Untouched
    case Name => if table == Transactions then Untouched else TextField("name")
    case Icon => if table == Ledgers then TextField("icon") else Untouched
    case Color => if table == Ledgers then TextField("color") else Untouched
    case SortOrder => if table == Ledgers then NumberField("sortOrder") else Untouched
    case Phone => if table == Contacts then TextField("phone") else Untouched
    case Notes => if table == Contacts then TextField("notes") else Untouched
    case CreditLimit => if table == Contacts then MoneyField("creditLimit") else Untouched
    case CreditCurrency => if table == Contacts then TextField("creditCurrency") else Untouched
    case AvatarColor => if table == Contacts then TextField("avatarColor") else Untouched
    case Type => if table == Transactions then TextField("type") else Untouched
    case Amount => if table == Transactions then MoneyField("amount") else Untouched
    case Currency => if table == Transactions then TextField("currency") else Untouched
    case Description => if table == Transactions then TextField("description") else Untouched
    case ItemName => if table == Transactions then TextField("itemName") else Untouched
    case TransactionDate => if table == Transactions then DateField("transactionDate") else Untouched
    case LedgerId => Untouched
    case ContactId => Untouched
    case AttachmentPath => Untouched
    case DeletedAt => Untouched
  }

  function CreateRule(table: Table, c: Column): Rule {
    match table
    case Ledgers =>
      (match c
       case Name => TextOr("name", "")
       case Type => TextOr("type", "personal")
       case Icon => TextOr("icon", "store")
       case Color => TextOr("color", "#6E6E76")
       case SortOrder => NumberOrZero("sortOrder")
       case ServerUpdatedAt => Stamped
       case _ => Untouched)
    case Contacts =>
      (match c
       case LedgerId => LinkField("ledgerId")
       case Name => TextOr("name", "")
       case Phone => TextOrNull("phone")
       case Notes => TextOrNull("notes")
       case CreditLimit => MoneyOrNull("creditLimit")
       case CreditCurrency => TextOrNull("creditCurrency")
       case AvatarColor => TextOr("avatarColor", "#6E6E76")
       case ServerUpdatedAt => Stamped
       case _ => Untouched)
    case Transactions =>
      (match c
       case ContactId => LinkField("contactId")
       case Type => TextOr("type", "debt")
       case Amount => MoneyField("amount")
       case Currency => TextOr("currency", "YER")
       case Description => TextOrNull("description")
       case ItemName => TextOrNull("itemName")
       case TransactionDate => DateOrStamp("transactionDate")
       case AttachmentPath => TextOrNull("attachmentPath")
       case ServerUpdatedAt => Stamped
       case _ => Untouched)
  }

  // ---- what a rule says ----------------------------------------------------

  function Field(d: Deltas, field: string): Json {
    if field in d then d[field] else Null
  }

  function Said(env: Env, v: Json): Cell {
    match v
    case Str(s) => Text(s)
    case _ => Text(env.toText(v))
  }

  function Counted(env: Env, v: Json): Cell {
    match v
    case Int(n) => Number(Some(n as real))
    case _ => Number(env.toNumber(v))
  }

  function Raised(v: Json): Option<Cell> {
    match v
    case Null => None
    case Bool(b) => Some(Flag(b))
    case Int(n) => Some(Flag(n != 0))
    case Str(s) => Some(Flag(s != ""))
    case _ => Some(Flag(true))
  }

  function Dated(env: Env, v: Json): Option<Cell> {
    if v.Str? && env.dateParse(v.s).Some? then Some(Instant(env.dateParse(v.s).value)) else None
  }

  /** The cell a rule writes, if it writes one. */
  function Value(env: Env, d: Deltas, stamp: int, r: Rule): Option<Cell> {
    match r
    case Untouched => None
    case Stamped => Some(Instant(stamp))
    case Set(flag) => Some(Flag(flag))
    case TextField(f) => if Field(d, f).Null? then None else Some(Said(env, Field(d, f)))
    case TextOr(f, default) => Some(if Field(d, f).Null? then Text(default) else Said(env, Field(d, f)))
    case TextOrNull(f) => Some(if Field(d, f).Null? then NullCell else Said(env, Field(d, f)))
    case NumberField(f) => if Field(d, f).Null? then None else Some(Counted(env, Field(d, f)))
    case NumberOrZero(f) => Some(if Field(d, f).Null? then Number(Some(0.0)) else Counted(env, Field(d, f)))
    case FlagField(f) => Raised(Field(d, f))
    case MoneyField(f) => if Field(d, f).Int? then Some(Money(Field(d, f).n)) else None
    case MoneyOrNull(f) => Some(if Field(d, f).Int? then Money(Field(d, f).n) else NullCell)
    case LinkField(f) => if Field(d, f).Str? then Some(Ref(Trim(Field(d, f).s))) else None
    case DateField(f) => Dated(env, Field(d, f))
    case DateOrStamp(f) => if Field(d, f).Null? then Some(Instant(stamp)) else Dated(env, Field(d, f))
  }

  // ---- which payloads are good ---------------------------------------------

  /** Text of 1 to `most` characters once trimmed. */
  predicate GoodText(v: Json, most: nat) {
    v.Str? && 1 <= |Trim(v.s)| <= most
  }

  /** A positive amount that JSON carries exactly. */
  predicate GoodMoney(v: Json) {
    v.Int? && 1 <= v.n <= 9_007_199_254_740_991
  }

  /** A time no more than a day ahead and no more than ten years behind. */
  predicate GoodInstant(env: Env, v: Json) {
    v.Str? && Trim(v.s) != "" && env.dateParse(v.s).Some?
      && env.now - 315_360_000_000 <= env.dateParse(v.s).value <= env.now + 86_400_000
  }

  /** The fields a payload carries; anything but an object carries none. */
  function Carried(p: Payload): Deltas {
    match p
    case Fields(d) => d
    case _ => map[]
  }

  /** The payload passes for a record; 0 and false do not. */
  predicate IsRecord(p: Payload) {
    match p
    case NoPayload => false
    case Fields(_) => true
    case Bare(v) => v != Bool(false) && v != Int(0)
  }

  /** What the checks before the append ask of a payload. */
  predicate GoodPayload(env: Env, entityType: string, verb: string, p: Payload) {
    var d := Carried(p);
    if entityType == "contact" && verb == "CREATE" then
      p != NoPayload ==>
        GoodText(Field(d, "ledgerId"), 128) && (Field(d, "creditLimit").Null? || GoodMoney(Field(d, "creditLimit")))
    else if entityType == "transaction" && verb == "CREATE" then
      p != NoPayload ==>
        && GoodText(Field(d, "contactId"), 128) && GoodMoney(Field(d, "amount"))
        && (Field(d, "transactionDate").Null? || GoodInstant(env, Field(d, "transactionDate")))
    else if entityType == "contact" && Edits(verb) then
      Field(d, "creditLimit").Null? || GoodMoney(Field(d, "creditLimit"))
    else if entityType == "transaction" && Edits(verb) then
      && (Field(d, "amount").Null? || GoodMoney(Field(d, "amount")))
      && (Field(d, "transactionDate").Null? || GoodInstant(env, Field(d, "transactionDate")))
    else true
  }

  // ---- the effect of a verb ------------------------------------------------

  function Written(env: Env, d: Deltas, stamp: int, rules: Column -> Rule): Cols {
    map c: Column | Value(env, d, stamp, rules(c)).Some? :: Value(env, d, stamp, rules(c)).value
  }

  function TableNamed(entityType: string): Table {
    if entityType == "ledger" then Ledgers else if entityType == "contact" then Contacts else Transactions
  }

  /** The table of verbs. */
  function Told(env: Env, entityType: string, entityId: string, verb: string, p: Payload, stamp: int): Effect {
    var table := TableNamed(entityType);
    var key := Key(table, entityId);
    if entityType !in {"ledger", "contact", "transaction"} then NoEffect(SkippedMissing)
    else if verb == "DELETE" then
      Patch(key, map[IsDeleted := Flag(true), DeletedAt := Instant(stamp), ServerUpdatedAt := Instant(stamp)])
    else if verb in {"CREATE", "UPDATE"} && !IsRecord(p) then NoEffect(SkippedNoDeltas)
    else if verb == "CREATE" then Upsert(key, Written(env, Carried(p), stamp, c => CreateRule(table, c)))
    else if Edits(verb) then Patch(key, Written(env, Carried(p), stamp, c => EditRule(table, verb, c)))
    else NoEffect(SkippedMissing)
  }

  // ---- the code agrees -----------------------------------------------------

  lemma TextChecks(v: Json, field: string, most: nat)
    ensures RequireString(v, field, most).Ok? <==> GoodText(v, most)
    ensures GoodText(v, most) ==> RequireString(v, field, most) == Ok(Trim(v.s))
  {
  }

  lemma MoneyChecks(v: Json, field: string)
    ensures RequireMoney(v, field).Ok? <==> GoodMoney(v)
    ensures GoodMoney(v) ==> RequireMoney(v, field) == Ok(v.n)
    ensures OptionalMoney(v, field).Ok? <==> v.Null? || GoodMoney(v)
    ensures GoodMoney(v) ==> OptionalMoney(v, field) == Ok(Some(v.n))
    ensures v.Null? ==> OptionalMoney(v, field) == Ok(None)
  {
  }

  lemma InstantChecks(env: Env, v: Json, field: string)
    ensures ParseInstant(env, v, field).Ok? <==> GoodInstant(env, v)
    ensures GoodInstant(env, v) ==> ParseInstant(env, v, field) == Ok(env.dateParse(v.s).value)
  {
    hide Trim;
  }

  lemma SameCols(env: Env, d: Deltas, stamp: int, at: Column -> Option<Cell>, rules: Column -> Rule)
    requires forall c :: at(c) == Value(env, d, stamp, rules(c))
    ensures ColsOf(at) == Written(env, d, stamp, rules)
  {
    hide Value;
  }

  lemma LedgerCreates(env: Env, d: Deltas, stamp: int, c: Column)
    ensures LedgerRow(env, LedgerFieldsOf(d), stamp, c) == Value(env, d, stamp, CreateRule(Ledgers, c))
  {
  }

  lemma ContactCreates(env: Env, d: Deltas, stamp: int, c: Column, ledgerId: string, limit: Option<int>)
    requires Field(d, "ledgerId").Str? && ledgerId == Trim(Field(d, "ledgerId").s)
    requires limit == if Field(d, "creditLimit").Int? then Some(Field(d, "creditLimit").n) else None
    ensures ContactRow(env, ContactFieldsOf(d), ledgerId, limit, stamp, c)
            == Value(env, d, stamp, CreateRule(Contacts, c))
  {
    hide Trim;
  }

  lemma TransactionCreates(env: Env, d: Deltas, stamp: int, c: Column, contactId: string, amount: int, when: int)
    requires Field(d, "contactId").Str? && contactId == Trim(Field(d, "contactId").s)
    requires Field(d, "amount") == Int(amount)
    requires if Field(d, "transactionDate").Null? then when == stamp
             else Dated(env, Field(d, "transactionDate")) == Some(Instant(when))
    ensures TransactionRow(env, TransactionFieldsOf(d), contactId, amount, when, stamp, c)
            == Value(env, d, stamp, CreateRule(Transactions, c))
  {
    hide Trim;
  }

  lemma LedgerEdits(env: Env, d: Deltas, stamp: int, c: Column)
    ensures LedgerPatch(env, LedgerFieldsOf(d), stamp, c) == Value(env, d, stamp, EditRule(Ledgers, "UPDATE", c))
  {
  }

  lemma ContactEdits(env: Env, d: Deltas, stamp: int, c: Column, limit: Option<int>)
    requires limit == if Field(d, "creditLimit").Int? then Some(Field(d, "creditLimit").n) else None
    ensures ContactPatch(env, ContactFieldsOf(d), limit, stamp, c)
            == Value(env, d, stamp, EditRule(Contacts, "UPDATE", c))
  {
  }

  lemma TransactionEdits(env: Env, d: Deltas, stamp: int, c: Column, amount: Option<int>, when: int)
    requires amount == if Field(d, "amount").Int? then Some(Field(d, "amount").n) else None
    requires !Field(d, "transactionDate").Null? ==> Dated(env, Field(d, "transactionDate")) == Some(Instant(when))
    ensures TransactionPatch(env, TransactionFieldsOf(d), amount, when, stamp, c)
            == Value(env, d, stamp, EditRule(Transactions, "UPDATE", c))
  {
  }

  lemma LedgerAsTold(env: Env, d: Deltas, stamp: int)
    ensures CreateLedger(env, LedgerFieldsOf(d), stamp) == Written(env, d, stamp, c => CreateRule(Ledgers, c))
    ensures UpdateLedger(env, LedgerFieldsOf(d), stamp) == Written(env, d, stamp, c => EditRule(Ledgers, "UPDATE", c))
  {
    hide Value, CreateRule, EditRule, LedgerRow, LedgerPatch, Written, ColsOf;
    var f := LedgerFieldsOf(d);
    forall c ensures LedgerRow(env, f, stamp, c) == Value(env, d, stamp, CreateRule(Ledgers, c)) {
      LedgerCreates(env, d, stamp, c);
    }
    SameCols(env, d, stamp, c => LedgerRow(env, f, stamp, c), c => CreateRule(Ledgers, c));
    forall c ensures LedgerPatch(env, f, stamp, c) == Value(env, d, stamp, EditRule(Ledgers, "UPDATE", c)) {
      LedgerEdits(env, d, stamp, c);
    }
    SameCols(env, d, stamp, c => LedgerPatch(env, f, stamp, c), c => EditRule(Ledgers, "UPDATE", c));
  }

  lemma ContactCreatesAsTold(env: Env, d: Deltas, stamp: int)
    ensures var r := CreateContact(env, ContactFieldsOf(d), stamp);
            && (r.Ok? <==> GoodPayload(env, "contact", "CREATE", Fields(d)))
            && (r.Ok? ==> r.value == Written(env, d, stamp, c => CreateRule(Contacts, c)))
  {
    var f := ContactFieldsOf(d);
    assert f.ledgerId == Field(d, "ledgerId") && f.creditLimit == Field(d, "creditLimit");
    TextChecks(f.ledgerId, "ledgerId", 128);
    MoneyChecks(f.creditLimit, "creditLimit");
    hide RequireString, OptionalMoney, Trim, Value, CreateRule, ContactRow, Written, ColsOf, ContactFieldsOf, Field;
    if CreateContact(env, f, stamp).Ok? {
      var (id, limit) := (Trim(f.ledgerId.s), OptionalMoney(f.creditLimit, "creditLimit").value);
      forall c ensures ContactRow(env, f, id, limit, stamp, c) == Value(env, d, stamp, CreateRule(Contacts, c)) {
        ContactCreates(env, d, stamp, c, id, limit);
      }
      SameCols(env, d, stamp, c => ContactRow(env, f, id, limit, stamp, c), c => CreateRule(Contacts, c));
    }
  }

  lemma ContactEditsAsTold(env: Env, d: Deltas, stamp: int)
    ensures var r := UpdateContact(env, ContactFieldsOf(d), stamp);
            && (r.Ok? <==> GoodPayload(env, "contact", "UPDATE", Fields(d)))
            && (r.Ok? ==> r.value == Written(env, d, stamp, c => EditRule(Contacts, "UPDATE", c)))
  {
    var f := ContactFieldsOf(d);
    assert f.creditLimit == Field(d, "creditLimit");
    MoneyChecks(f.creditLimit, "creditLimit");
    hide OptionalMoney, Trim, Value, EditRule, ContactPatch, Written, ColsOf, ContactFieldsOf, Field;
    if UpdateContact(env, f, stamp).Ok? {
      var limit := OptionalMoney(f.creditLimit, "creditLimit").value;
      forall c ensures ContactPatch(env, f, limit, stamp, c) == Value(env, d, stamp, EditRule(Contacts, "UPDATE", c)) {
        ContactEdits(env, d, stamp, c, limit);
      }
      SameCols(env, d, stamp, c => ContactPatch(env, f, limit, stamp, c), c => EditRule(Contacts, "UPDATE", c));
    }
  }

  lemma DateChecks(env: Env, v: Json, stamp: int)
    ensures DateOf(env, v, stamp).Ok? <==> v.Null? || GoodInstant(env, v)
    ensures v.Null? ==> DateOf(env, v, stamp) == Ok(stamp)
    ensures GoodInstant(env, v) ==>
              DateOf(env, v, stamp).Ok? && Dated(env, v) == Some(Instant(DateOf(env, v, stamp).value))
  {
    InstantChecks(env, v, "transactionDate");
    hide ParseInstant, Trim;
  }

  lemma TransactionCreatesAsTold(env: Env, d: Deltas, stamp: int)
    ensures var r := CreateTransaction(env, TransactionFieldsOf(d), stamp);
            && (r.Ok? <==> GoodPayload(env, "transaction", "CREATE", Fields(d)))
            && (r.Ok? ==> r.value == Written(env, d, stamp, c => CreateRule(Transactions, c)))
  {
    var f := TransactionFieldsOf(d);
    assert f.contactId == Field(d, "contactId") && f.amount == Field(d, "amount")
           && f.transactionDate == Field(d, "transactionDate");
    TextChecks(f.contactId, "contactId", 128);
    MoneyChecks(f.amount, "amount");
    DateChecks(env, f.transactionDate, stamp);
    hide RequireString, RequireMoney, DateOf, Dated, GoodInstant, Trim, Value, CreateRule, TransactionRow, Written;
    hide ColsOf, TransactionFieldsOf, Field;
    if CreateTransaction(env, f, stamp).Ok? {
      var (id, amount, when) := (Trim(f.contactId.s), f.amount.n, DateOf(env, f.transactionDate, stamp).value);
      forall c
        ensures TransactionRow(env, f, id, amount, when, stamp, c) == Value(env, d, stamp, CreateRule(Transactions, c))
      {
        TransactionCreates(env, d, stamp, c, id, amount, when);
      }
      SameCols(env, d, stamp, c => TransactionRow(env, f, id, amount, when, stamp, c),
               c => CreateRule(Transactions, c));
    }
  }

  lemma TransactionEditsAsTold(env: Env, d: Deltas, stamp: int)
    ensures var r := UpdateTransaction(env, TransactionFieldsOf(d), stamp);
            && (r.Ok? <==> GoodPayload(env, "transaction", "UPDATE", Fields(d)))
            && (r.Ok? ==> r.value == Written(env, d, stamp, c => EditRule(Transactions, "UPDATE", c)))
  {
    var f := TransactionFieldsOf(d);
    assert f.amount == Field(d, "amount") && f.transactionDate == Field(d, "transactionDate");
    MoneyChecks(f.amount, "amount");
    DateChecks(env, f.transactionDate, stamp);
    hide OptionalMoney, DateOf, Dated, GoodInstant, Trim, Value, EditRule, TransactionPatch, Written;
    hide ColsOf, TransactionFieldsOf, Field;
    if UpdateTransaction(env, f, stamp).Ok? {
      var (amount, when) := (OptionalMoney(f.amount, "amount").value, DateOf(env, f.transactionDate, stamp).value);
      forall c
        ensures TransactionPatch(env, f, amount, when, stamp, c)
                == Value(env, d, stamp, EditRule(Transactions, "UPDATE", c))
      {
        TransactionEdits(env, d, stamp, c, amount, when);
      }
      SameCols(env, d, stamp, c => TransactionPatch(env, f, amount, when, stamp, c),
               c => EditRule(Transactions, "UPDATE", c));
    }
  }

  // ---- verbs that set a flag -----------------------------------------------

  function FlagName(c: Column): string {
    if c == IsUserArchived then "isUserArchived" else if c == IsDeleted then "isDeleted" else "isArchived"
  }

  /** The payload of a verb once its flag is set in it. */
  function WithItsFlag(verb: string, d: Deltas): Deltas {
    match ItsFlag(verb)
    case None => d
    case Some((c, flag)) => d[FlagName(c) := Bool(flag)]
  }

  predicate FlagColumn(c: Column) {
    c == IsUserArchived || c == IsDeleted || c == IsArchived
  }

  lemma ItsFlagIs(verb: string)
    ensures ItsFlag(verb).Some? ==> FlagColumn(ItsFlag(verb).value.0)
    ensures ItsFlag("UPDATE").None?
  {
  }

  lemma NamesApart(c: Column, e: Column)
    requires FlagColumn(c) && FlagColumn(e) && c != e
    ensures FlagName(c) != FlagName(e)
  {
    assert |"isUserArchived"| == 14 && |"isDeleted"| == 9 && |"isArchived"| == 10;
  }

  lemma NameIsFlags(c: Column)
    requires FlagColumn(c)
    ensures FlagName(c) in {"isUserArchived", "isDeleted", "isArchived"}
  {
  }

  lemma OtherFieldsStay(verb: string, d: Deltas, field: string)
    requires field !in {"isUserArchived", "isDeleted", "isArchived"}
    ensures Field(WithItsFlag(verb, d), field) == Field(d, field)
  {
    ItsFlagIs(verb);
    if ItsFlag(verb).Some? { NameIsFlags(ItsFlag(verb).value.0); }
    hide ItsFlag, FlagName, FlagColumn;
  }

  lemma FlagFieldIs(verb: string, d: Deltas, c: Column)
    requires FlagColumn(c)
    ensures Field(WithItsFlag(verb, d), FlagName(c)) ==
            if ItsFlag(verb).Some? && ItsFlag(verb).value.0 == c then Bool(ItsFlag(verb).value.1)
            else Field(d, FlagName(c))
  {
    ItsFlagIs(verb);
    if ItsFlag(verb).Some? && ItsFlag(verb).value.0 != c { NamesApart(ItsFlag(verb).value.0, c); }
    hide ItsFlag, FlagName, FlagColumn;
  }

  /** The field a rule reads, if it reads one. */
  function FieldRead(r: Rule): Option<string> {
    match r
    case Untouched => None
    case Stamped => None
    case Set(_) => None
    case _ => Some(r.field)
  }

  lemma SameValue(env: Env, d: Deltas, d': Deltas, stamp: int, r: Rule)
    requires FieldRead(r).Some? ==> Field(d, FieldRead(r).value) == Field(d', FieldRead(r).value)
    ensures Value(env, d, stamp, r) == Value(env, d', stamp, r)
  {
    hide Field;
  }

  lemma OtherRules(table: Table, verb: string, c: Column)
    requires !FlagColumn(c)
    ensures EditRule(table, verb, c) == EditRule(table, "UPDATE", c)
    ensures var f := FieldRead(EditRule(table, verb, c));
            f.Some? ==> f.value !in {"isUserArchived", "isDeleted", "isArchived"}
  {
  }

  lemma FlagRules(env: Env, table: Table, verb: string, d: Deltas, stamp: int, c: Column)
    requires FlagColumn(c)
    ensures Value(env, WithItsFlag(verb, d), stamp, EditRule(table, "UPDATE", c))
            == Value(env, d, stamp, EditRule(table, verb, c))
  {
    FlagFieldIs(verb, d, c);
    ItsFlagIs(verb);
    assert FlagRule("UPDATE", c, FlagName(c)) == FlagField(FlagName(c)) by { hide FlagName; }
    hide Field, WithItsFlag, ItsFlag;
  }

  lemma FlagEdits(env: Env, table: Table, verb: string, d: Deltas, stamp: int, c: Column)
    requires Edits(verb)
    ensures Value(env, WithItsFlag(verb, d), stamp, EditRule(table, "UPDATE", c))
            == Value(env, d, stamp, EditRule(table, verb, c))
  {
    if FlagColumn(c) {
      FlagRules(env, table, verb, d, stamp, c);
    } else {
      OtherRules(table, verb, c);
      var f := FieldRead(EditRule(table, verb, c));
      if f.Some? {
        OtherFieldsStay(verb, d, f.value);
      }
      SameValue(env, WithItsFlag(verb, d), d, stamp, EditRule(table, verb, c));
    }
    hide Value, EditRule, Field, WithItsFlag, Edits;
  }

  // ---- the theorem ---------------------------------------------------------

  lemma WritesAsTold(env: Env, entityType: string, d: Deltas, stamp: int)
    requires entityType in {"ledger", "contact", "transaction"}
    ensures var (r, table) := (CreateCols(env, entityType, d, stamp), TableNamed(entityType));
            && (r.Ok? <==> GoodPayload(env, entityType, "CREATE", Fields(d)))
            && (r.Ok? ==> r.value == Written(env, d, stamp, c => CreateRule(table, c)))
    ensures var (r, table) := (UpdateCols(env, entityType, d, stamp), TableNamed(entityType));
            && (r.Ok? <==> GoodPayload(env, entityType, "UPDATE", Fields(d)))
            && (r.Ok? ==> r.value == Written(env, d, stamp, c => EditRule(table, "UPDATE", c)))
  {
    LedgerAsTold(env, d, stamp);
    ContactCreatesAsTold(env, d, stamp);
    ContactEditsAsTold(env, d, stamp);
    TransactionCreatesAsTold(env, d, stamp);
    TransactionEditsAsTold(env, d, stamp);
    hide Written, CreateRule, EditRule, CreateLedger, UpdateLedger, CreateContact, UpdateContact, CreateTransaction;
    hide UpdateTransaction, LedgerFieldsOf, ContactFieldsOf, TransactionFieldsOf, GoodText, GoodMoney, GoodInstant;
  }

  /** A payload that is there is read, and checked, as the fields it carries. */
  lemma CarriedIs(env: Env, entityType: string, verb: string, p: Payload)
    ensures FieldsOf(p) == Carried(p) && (Passes(p) <==> IsRecord(p))
    ensures p != NoPayload ==>
              (GoodPayload(env, entityType, verb, p) <==> GoodPayload(env, entityType, verb, Fields(Carried(p))))
  {
    hide GoodText, GoodMoney, GoodInstant, Field;
  }

  lemma FlaggedGood(env: Env, entityType: string, verb: string, p: Payload)
    requires Edits(verb)
    ensures GoodPayload(env, entityType, verb, p)
       <==> GoodPayload(env, entityType, "UPDATE", Fields(WithItsFlag(verb, Carried(p))))
  {
    var d := Carried(p);
    OtherFieldsStay(verb, d, "creditLimit");
    OtherFieldsStay(verb, d, "amount");
    OtherFieldsStay(verb, d, "transactionDate");
    hide GoodMoney, GoodInstant, Field, WithItsFlag, Carried;
  }

  lemma FlaggedWrites(env: Env, table: Table, verb: string, d: Deltas, stamp: int)
    requires Edits(verb)
    ensures Written(env, WithItsFlag(verb, d), stamp, c => EditRule(table, "UPDATE", c))
         == Written(env, d, stamp, c => EditRule(table, verb, c))
  {
    forall c ensures Value(env, WithItsFlag(verb, d), stamp, EditRule(table, "UPDATE", c))
                  == Value(env, d, stamp, EditRule(table, verb, c)) {
      FlagEdits(env, table, verb, d, stamp, c);
    }
    hide Value, EditRule, WithItsFlag, Edits;
  }

  /** The four verbs become an UPDATE of the payload with their flag; every other verb stays what it is. */
  lemma NormalizedAs(verb: string, p: Payload)
    ensures NormalizePushAction(verb, p) ==
            if Edits(verb) && verb != "UPDATE" then ("UPDATE", Fields(WithItsFlag(verb, Carried(p)))) else (verb, p)
  {
  }

  lemma UpdateEffect(env: Env, entityType: string, entityId: string, q: Payload, stamp: int)
    requires entityType in {"ledger", "contact", "transaction"}
    ensures EffectOf(env, entityType, entityId, "UPDATE", q, stamp) ==
            if !Passes(q) then Ok(NoEffect(SkippedNoDeltas))
            else
              match UpdateCols(env, entityType, FieldsOf(q), stamp)
              case Err(e) => Err(e)
              case Ok(cols) => Ok(Patch(Key(TableNamed(entityType), entityId), cols))
  {
    hide UpdateCols, CreateCols, Passes;
  }

  lemma CreateEffect(env: Env, entityType: string, entityId: string, q: Payload, stamp: int)
    requires entityType in {"ledger", "contact", "transaction"}
    ensures EffectOf(env, entityType, entityId, "CREATE", q, stamp) ==
            if !Passes(q) then Ok(NoEffect(SkippedNoDeltas))
            else
              match CreateCols(env, entityType, FieldsOf(q), stamp)
              case Err(e) => Err(e)
              case Ok(cols) => Ok(Upsert(Key(TableNamed(entityType), entityId), cols))
  {
    hide UpdateCols, CreateCols, Passes;
  }

  lemma EditToldIs(env: Env, entityType: string, entityId: string, verb: string, p: Payload, stamp: int)
    requires Edits(verb) && entityType in {"ledger", "contact", "transaction"}
    ensures var table := TableNamed(entityType);
            Told(env, entityType, entityId, verb, p, stamp) ==
            if verb == "UPDATE" && !IsRecord(p) then NoEffect(SkippedNoDeltas)
            else Patch(Key(table, entityId), Written(env, Carried(p), stamp, c => EditRule(table, verb, c)))
  {
    hide IsRecord, Written, Carried, EditRule, CreateRule;
  }

  lemma CreateToldIs(env: Env, entityType: string, entityId: string, p: Payload, stamp: int)
    requires entityType in {"ledger", "contact", "transaction"}
    ensures var table := TableNamed(entityType);
            Told(env, entityType, entityId, "CREATE", p, stamp) ==
            if !IsRecord(p) then NoEffect(SkippedNoDeltas)
            else Upsert(Key(table, entityId), Written(env, Carried(p), stamp, c => CreateRule(table, c)))
  {
    hide IsRecord, Written, Carried, EditRule, CreateRule;
  }

  lemma DeleteToldIs(env: Env, entityType: string, entityId: string, p: Payload, stamp: int)
    requires entityType in {"ledger", "contact", "transaction"}
    ensures Told(env, entityType, entityId, "DELETE", p, stamp)
            == Patch(Key(TableNamed(entityType), entityId),
                     map[IsDeleted := Flag(true), DeletedAt := Instant(stamp), ServerUpdatedAt := Instant(stamp)])
  {
    hide IsRecord, Written, Carried, EditRule, CreateRule;
  }

  lemma EditAsTold(env: Env, entityType: string, entityId: string, verb: string, p: Payload, stamp: int)
    requires Edits(verb) && entityType in {"ledger", "contact", "transaction"}
    ensures var r := Intake.Projection(env, entityType, entityId, verb, p, stamp);
            && (r.Ok? <==> GoodPayload(env, entityType, verb, p))
            && (r.Ok? ==> r.value == Told(env, entityType, entityId, verb, p, stamp))
  {
    NormalizedAs(verb, p);
    CarriedIs(env, entityType, verb, p);
    EditToldIs(env, entityType, entityId, verb, p, stamp);
    var d := Carried(p);
    WritesAsTold(env, entityType, WithItsFlag(verb, d), stamp);
    FlaggedGood(env, entityType, verb, p);
    FlaggedWrites(env, TableNamed(entityType), verb, d, stamp);
    var q := if verb != "UPDATE" then Fields(WithItsFlag(verb, d)) else p;
    UpdateEffect(env, entityType, entityId, q, stamp);
    ItsFlagIs(verb);
    assert verb == "UPDATE" ==> WithItsFlag(verb, d) == d;
    assert verb == "UPDATE" && !IsRecord(p) ==> GoodPayload(env, entityType, verb, p) by {
      hide GoodMoney, GoodInstant, EffectOf, Told;
    }
    assert verb != "UPDATE" ==> Passes(q) && FieldsOf(q) == WithItsFlag(verb, d);
    hide Written, GoodPayload, NormalizePushAction, CreateCols, UpdateCols, FieldsOf, Passes, EditRule, CreateRule;
    hide Carried, IsRecord, EffectOf, Told, TableNamed, WithItsFlag, Edits, ItsFlag;
  }

  lemma CreateAsTold(env: Env, entityType: string, entityId: string, p: Payload, stamp: int)
    requires entityType in {"ledger", "contact", "transaction"}
    ensures var r := Intake.Projection(env, entityType, entityId, "CREATE", p, stamp);
            && (r.Ok? <==> GoodPayload(env, entityType, "CREATE", p) || !IsRecord(p))
            && (r.Ok? ==> r.value == Told(env, entityType, entityId, "CREATE", p, stamp))
  {
    CarriedIs(env, entityType, "CREATE", p);
    WritesAsTold(env, entityType, Carried(p), stamp);
    NormalizedAs("CREATE", p);
    CreateEffect(env, entityType, entityId, p, stamp);
    CreateToldIs(env, entityType, entityId, p, stamp);
    hide Written, GoodPayload, NormalizePushAction, CreateCols, UpdateCols, FieldsOf, Passes, EditRule, CreateRule;
    hide Carried, EffectOf, Told, TableNamed;
  }

  /**
   * Every verb does to the mirror what the tables say, for every entity type and
   * payload; it is refused exactly when the payload is not good, and a creation
   * without a record never is.
   */
  lemma VerbsAsTold(env: Env, entityType: string, entityId: string, verb: string, p: Payload, stamp: int)
    ensures var r := Intake.Projection(env, entityType, entityId, verb, p, stamp);
            && (r.Ok? <==> GoodPayload(env, entityType, verb, p) || (verb == "CREATE" && !IsRecord(p)))
            && (r.Ok? ==> r.value == Told(env, entityType, entityId, verb, p, stamp))
  {
    if entityType in {"ledger", "contact", "transaction"} {
      if Edits(verb) {
        EditAsTold(env, entityType, entityId, verb, p, stamp);
      } else if verb == "CREATE" {
        CreateAsTold(env, entityType, entityId, p, stamp);
      }
    }
    NormalizedAs(verb, p);
    hide Written, NormalizePushAction, CreateCols, UpdateCols, FieldsOf, Passes, EditRule, CreateRule, Carried;
    hide GoodText, GoodMoney, GoodInstant;
  }

  /** The checks before the append pass exactly the good payloads. */
  lemma ChecksAsTold(env: Env, entityType: string, verb: string, p: Payload)
    ensures var (action, q) := NormalizePushAction(verb, p);
            ValidateEntityDeltas(env, entityType, action, q).None? <==> GoodPayload(env, entityType, verb, p)
  {
    NormalizedAs(verb, p);
    var d := Carried(p);
    CarriedIs(env, entityType, verb, p);
    if entityType in {"ledger", "contact", "transaction"} && (Edits(verb) || verb == "CREATE") {
      var q := if Edits(verb) && verb != "UPDATE" then Fields(WithItsFlag(verb, d)) else p;
      if q != NoPayload {
        ChecksAgree(env, entityType, q, 0);
      }
      WritesAsTold(env, entityType, d, 0);
      WritesAsTold(env, entityType, WithItsFlag(verb, d), 0);
      if Edits(verb) {
        FlaggedGood(env, entityType, verb, p);
      }
      hide CreateCols, UpdateCols, ValidateEntityDeltas, GoodPayload, Written, NormalizePushAction;
    }
  }

  // ---- the row a verb leaves -----------------------------------------------

  function Look(cols: Cols, c: Column): Option<Cell> {
    if c in cols then Some(cols[c]) else None
  }

  function Or(a: Option<Cell>, b: Option<Cell>): Option<Cell> {
    if a.Some? then a else b
  }

  /** What the database puts into a new row by itself. */
  function Fresh(table: Table, c: Column): Option<Cell> {
    match c
    case IsDeleted => Some(Flag(false))
    case IsArchived => Some(Flag(false))
    case DeletedAt => Some(NullCell)
    case IsUserArchived => if table == Ledgers then Some(Flag(false)) else None
    case CarryForwardTargetLedgerId => if table == Ledgers then Some(NullCell) else None
    case _ => None
  }

  /** No other row of the mirror changes. */
  predicate OthersStay(m: Mirror, m': Mirror, key: Key) {
    m'.Keys == m.Keys + {key} && forall k :: k in m && k != key ==> m'[k] == m[k]
  }

  /** The mirror after an accepted op of this verb, and what projecting it answers. */
  function After(env: Env, m: Mirror, entityType: string, entityId: string, verb: string, p: Payload, stamp: int,
                 opSeq: nat): (Mirror, EntityApplyOutcome)
    requires GoodPayload(env, entityType, verb, p)
  {
    VerbsAsTold(env, entityType, entityId, verb, p, stamp);
    Project(m, SeqOp(Intake.Projection(env, entityType, entityId, verb, p, stamp).value, opSeq))
  }

  lemma LookWritten(env: Env, d: Deltas, stamp: int, rules: Column -> Rule, base: Cols, c: Column)
    ensures Look(base + Written(env, d, stamp, rules), c) == Or(Value(env, d, stamp, rules(c)), Look(base, c))
  {
    hide Value;
  }

  lemma PatchLeaves(m: Mirror, key: Key, cols: Cols, opSeq: nat)
    ensures var (m', outcome) := Project(m, SeqOp(Patch(key, cols), opSeq));
            && (key !in m ==> m' == m && outcome == SkippedMissing)
            && (key in m && Stale(m[key], opSeq) ==> m' == m && outcome == SkippedStale)
            && (key in m && !Stale(m[key], opSeq) ==>
                  outcome == Applied && OthersStay(m, m', key) && m'[key] == Row(m[key].cols + cols, Some(opSeq)))
  {
  }

  lemma UpsertLeaves(m: Mirror, key: Key, cols: Cols, opSeq: nat)
    ensures var (m', outcome) := Project(m, SeqOp(Upsert(key, cols), opSeq));
            outcome == Applied && OthersStay(m, m', key)
            && m'[key] == Row((if key in m then m[key].cols else Defaults(key.table)) + cols, Some(opSeq))
  {
  }

  /**
   * An edit of a row that is there and behind leaves every column as its rule says and
   * no other row touched; on a missing row, or one that is ahead, it does nothing.
   */
  lemma RowAfterEdit(env: Env, m: Mirror, entityType: string, entityId: string, verb: string, p: Payload, stamp: int,
                     opSeq: nat)
    requires entityType in {"ledger", "contact", "transaction"} && GoodPayload(env, entityType, verb, p)
    requires Edits(verb) && (verb == "UPDATE" ==> IsRecord(p))
    ensures var (m', outcome) := After(env, m, entityType, entityId, verb, p, stamp, opSeq);
            var (table, key) := (TableNamed(entityType), Key(TableNamed(entityType), entityId));
            && (key !in m ==> m' == m && outcome == SkippedMissing)
            && (key in m && Stale(m[key], opSeq) ==> m' == m && outcome == SkippedStale)
            && (key in m && !Stale(m[key], opSeq) ==>
                  && outcome == Applied && OthersStay(m, m', key) && m'[key].opSeq == Some(opSeq)
                  && forall c :: Look(m'[key].cols, c)
                              == Or(Value(env, Carried(p), stamp, EditRule(table, verb, c)), Look(m[key].cols, c)))
  {
    VerbsAsTold(env, entityType, entityId, verb, p, stamp);
    var (table, key) := (TableNamed(entityType), Key(TableNamed(entityType), entityId));
    var rules := c => EditRule(table, verb, c);
    var cols := Written(env, Carried(p), stamp, rules);
    EditToldIs(env, entityType, entityId, verb, p, stamp);
    PatchLeaves(m, key, cols, opSeq);
    if key in m {
      forall c ensures Look(m[key].cols + cols, c)
                    == Or(Value(env, Carried(p), stamp, EditRule(table, verb, c)), Look(m[key].cols, c)) {
        LookWritten(env, Carried(p), stamp, rules, m[key].cols, c);
      }
    }
    hide Value, EditRule, GoodPayload, Written, IsRecord, Intake.Projection, Look, Or, Told, Project, OthersStay;
    hide Carried;
  }

  lemma DefaultsAre(table: Table, c: Column)
    ensures Look(Defaults(table), c) == Fresh(table, c)
  {
  }

  /** A creation writes its columns over the row, or over a fresh one, wherever the row stands. */
  lemma RowAfterCreate(env: Env, m: Mirror, entityType: string, entityId: string, p: Payload, stamp: int, opSeq: nat)
    requires entityType in {"ledger", "contact", "transaction"} && GoodPayload(env, entityType, "CREATE", p)
    requires IsRecord(p)
    ensures var (m', outcome) := After(env, m, entityType, entityId, "CREATE", p, stamp, opSeq);
            var (table, key) := (TableNamed(entityType), Key(TableNamed(entityType), entityId));
            && outcome == Applied && OthersStay(m, m', key) && m'[key].opSeq == Some(opSeq)
            && forall c :: Look(m'[key].cols, c)
                        == Or(Value(env, Carried(p), stamp, CreateRule(table, c)),
                              if key in m then Look(m[key].cols, c) else Fresh(table, c))
  {
    VerbsAsTold(env, entityType, entityId, "CREATE", p, stamp);
    var (table, key) := (TableNamed(entityType), Key(TableNamed(entityType), entityId));
    var rules := c => CreateRule(table, c);
    var cols := Written(env, Carried(p), stamp, rules);
    CreateToldIs(env, entityType, entityId, p, stamp);
    UpsertLeaves(m, key, cols, opSeq);
    var base := if key in m then m[key].cols else Defaults(table);
    forall c ensures Look(base + cols, c)
                  == Or(Value(env, Carried(p), stamp, CreateRule(table, c)),
                        if key in m then Look(m[key].cols, c) else Fresh(table, c)) {
      LookWritten(env, Carried(p), stamp, rules, base, c);
      DefaultsAre(table, c);
    }
    hide Value, CreateRule, GoodPayload, Written, IsRecord, Intake.Projection, Look, Or, Defaults, Fresh;
    hide Told, Project, OthersStay, Carried;
  }

  /** The cells a verb changes when its payload carries nothing, the stamp aside. */
  function ItsCells(table: Table, verb: string, stamp: int): Cols {
    if verb == "USER_ARCHIVE" && table == Ledgers then map[IsUserArchived := Flag(true)]
    else if verb == "USER_UNARCHIVE" && table == Ledgers then map[IsUserArchived := Flag(false)]
    else if verb == "RESTORE" then map[IsDeleted := Flag(false)]
    else if verb == "ACTIVATE_ARCHIVED" then map[IsArchived := Flag(false)]
    else if verb == "DELETE" then map[IsDeleted := Flag(true), DeletedAt := Instant(stamp)]
    else map[]
  }

  lemma NothingCarried(env: Env, table: Table, verb: string, stamp: int, c: Column)
    ensures Value(env, map[], stamp, EditRule(table, verb, c)) ==
            if c == ServerUpdatedAt then Some(Instant(stamp))
            else if ItsFlag(verb).Some? && ItsFlag(verb).value.0 == c && FlagColumn(c)
                    && (table == Ledgers || c != IsUserArchived)
              then Some(Flag(ItsFlag(verb).value.1)) else None
  {
    forall f: string ensures Field(map[], f) == Null {}
    hide ItsFlag, Field;
  }

  lemma ItsCellsAre(table: Table, verb: string, stamp: int, c: Column)
    requires verb != "DELETE"
    ensures Look(ItsCells(table, verb, stamp), c) ==
            if ItsFlag(verb).Some? && ItsFlag(verb).value.0 == c && FlagColumn(c)
               && (table == Ledgers || c != IsUserArchived)
              then Some(Flag(ItsFlag(verb).value.1)) else None
  {
  }

  lemma NothingWritten(env: Env, table: Table, verb: string, stamp: int)
    requires verb != "DELETE"
    ensures Written(env, map[], stamp, c => EditRule(table, verb, c))
         == ItsCells(table, verb, stamp)[ServerUpdatedAt := Instant(stamp)]
  {
    forall c ensures Value(env, map[], stamp, EditRule(table, verb, c))
                  == Look(ItsCells(table, verb, stamp)[ServerUpdatedAt := Instant(stamp)], c) {
      NothingCarried(env, table, verb, stamp, c);
      ItsCellsAre(table, verb, stamp, c);
    }
    hide Value, EditRule, ItsCells, ItsFlag;
  }

  /** The verbs that change flags alone. */
  predicate SetsFlags(verb: string) {
    verb in {"USER_ARCHIVE", "USER_UNARCHIVE", "RESTORE", "ACTIVATE_ARCHIVED", "DELETE"}
  }

  lemma SetsFlagsIs(verb: string)
    requires SetsFlags(verb)
    ensures verb != "UPDATE" && (verb != "DELETE" ==> Edits(verb))
  {
  }

  lemma EmptyIsGood(env: Env, entityType: string, verb: string, p: Payload)
    requires SetsFlags(verb) && (verb == "DELETE" || Carried(p) == map[])
    ensures GoodPayload(env, entityType, verb, p)
  {
    hide GoodMoney, GoodInstant, GoodText;
  }

  /**
   * Archiving, unarchiving, restoring, activating and deleting with no fields of their own,
   * on a row that is there and behind: exactly the verb's flag changes, with the stamp and the
   * number. A deletion ignores its payload.
   */
  lemma FlagVerbs(env: Env, m: Mirror, entityType: string, entityId: string, verb: string, p: Payload, stamp: int,
                  opSeq: nat)
    requires entityType in {"ledger", "contact", "transaction"}
    requires SetsFlags(verb) && (verb == "DELETE" || Carried(p) == map[])
    ensures GoodPayload(env, entityType, verb, p)
    ensures var (m', outcome) := After(env, m, entityType, entityId, verb, p, stamp, opSeq);
            var (table, key) := (TableNamed(entityType), Key(TableNamed(entityType), entityId));
            key in m && !Stale(m[key], opSeq) ==>
              && outcome == Applied
              && m' == m[key := Row(m[key].cols + ItsCells(table, verb, stamp)[ServerUpdatedAt := Instant(stamp)],
                                    Some(opSeq))]
  {
    EmptyIsGood(env, entityType, verb, p);
    SetsFlagsIs(verb);
    VerbsAsTold(env, entityType, entityId, verb, p, stamp);
    var (table, key) := (TableNamed(entityType), Key(TableNamed(entityType), entityId));
    var cells := ItsCells(table, verb, stamp)[ServerUpdatedAt := Instant(stamp)];
    if verb == "DELETE" {
      DeleteToldIs(env, entityType, entityId, p, stamp);
      DeletedCells(table, stamp);
    } else {
      NothingWritten(env, table, verb, stamp);
      EditToldIs(env, entityType, entityId, verb, p, stamp);
    }
    hide Told, TableNamed, IsRecord, Written, EditRule, ItsCells, Edits, SetsFlags, GoodPayload, Carried;
    PatchLeaves(m, key, cells, opSeq);
    hide Intake.Projection, Project;
  }

  lemma DeletedCells(table: Table, stamp: int)
    ensures ItsCells(table, "DELETE", stamp) == map[IsDeleted := Flag(true), DeletedAt := Instant(stamp)]
  {
  }
}
