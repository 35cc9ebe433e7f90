/**
 * Field deltas of a pushed op: how the extended verbs are normalised, which
 * deltas the pre-flight check refuses, and which columns the projection writes.
 */
module Deltas {
  import opened Common

  /** A JSON value as the handler sees it; a missing property reads as Null. */
  datatype Json =
    | Null
    | Bool(b: bool)
    | Int(n: int)
    | Fraction(literal: string)   // a number that is not an integer
    | Str(s: string)
    | Composite(literal: string)  // an object or an array

  type Deltas = map<string, Json>

  type BareJson = v: Json | v.Bool? || v.Int? || v.Fraction? witness Bool(false)

  /**
   * The deltas of an op as they are passed around. Nothing stops a client from
   * sending a bare number or boolean: it is kept as it is, and reads as a record
   * without fields.
   */
  datatype Payload = NoPayload | Fields(deltas: Deltas) | Bare(v: BareJson)

  /** The clock and the platform's parsers and coercions, fixed for one request. */
  datatype Env = Env(now: int, dateParse: string -> Option<int>, jsonObject: string -> Option<Deltas>,
                     toText: Json -> string, toNumber: Json -> Option<real>)

  datatype ValidationError = InvalidField(field: string) | TooFarInFuture(field: string) | TooFarInPast(field: string)

  const ENTITY_ID_MAX_LENGTH: nat := 128
  const MAX_SAFE_INTEGER: int := 0x1F_FFFF_FFFF_FFFF
  const LOGGED_AT_MAX_FUTURE_MS: int := 24 * 60 * 60 * 1000
  const LOGGED_AT_MAX_PAST_MS: int := 10 * 365 * 24 * 60 * 60 * 1000

  function Get(deltas: Deltas, field: string): Json {
    if field in deltas then deltas[field] else Null
  }

  // ---- validation.ts -------------------------------------------------------

  predicate IsSpace(c: char) {
    c == ' ' || '\t' <= c <= '\r' || c == '\U{A0}' || c == '\U{1680}' || '\U{2000}' <= c <= '\U{200A}'
    || c == '\U{2028}' || c == '\U{2029}' || c == '\U{202F}' || c == '\U{205F}' || c == '\U{3000}' || c == '\U{FEFF}'
  }

  function TrimStart(s: string): string {
    if s != "" && IsSpace(s[0]) then TrimStart(s[1..]) else s
  }

  function TrimEnd(s: string): string {
    if s != "" && IsSpace(s[|s| - 1]) then TrimEnd(s[..|s| - 1]) else s
  }

  function Trim(s: string): string {
    TrimEnd(TrimStart(s))
  }

  function RequireString(value: Json, field: string, maxLength: nat): Result<string, ValidationError> {
    if !value.Str? then Err(InvalidField(field))
    else
      var trimmed := Trim(value.s);
      if |trimmed| == 0 || |trimmed| > maxLength then Err(InvalidField(field)) else Ok(trimmed)
  }

  predicate IsValidMoneyAmount(value: Json) {
    value.Int? && -MAX_SAFE_INTEGER <= value.n <= MAX_SAFE_INTEGER && value.n > 0
  }

  function ParseInstant(env: Env, value: Json, field: string): Result<int, ValidationError> {
    if !value.Str? || |Trim(value.s)| == 0 then Err(InvalidField(field))
    else
      match env.dateParse(value.s)
      case None => Err(InvalidField(field))
      case Some(parsed) =>
        if parsed > env.now + LOGGED_AT_MAX_FUTURE_MS then Err(TooFarInFuture(field))
        else if parsed < env.now - LOGGED_AT_MAX_PAST_MS then Err(TooFarInPast(field))
        else Ok(parsed)
  }

  function RequireMoney(value: Json, field: string): Result<int, ValidationError> {
    if IsValidMoneyAmount(value) then Ok(value.n) else Err(InvalidField(field))
  }

  function OptionalMoney(value: Json, field: string): Result<Option<int>, ValidationError> {
    if value.Null? then Ok(None)
    else
      match RequireMoney(value, field)
      case Ok(n) => Ok(Some(n))
      case Err(e) => Err(e)
  }

  // ---- verbs ---------------------------------------------------------------

  predicate IsSyncableEntityType(entityType: string) {
    entityType == "ledger" || entityType == "contact" || entityType == "transaction"
  }

  predicate IsSyncOpAction(action: string) {
    action in {"CREATE", "UPDATE", "DELETE", "RESTORE", "ACTIVATE_ARCHIVED", "USER_ARCHIVE", "USER_UNARCHIVE",
               "CARRY_FORWARD"}
  }

  /** The fields that can be read off a payload. */
  function FieldsOf(p: Payload): Deltas {
    if p.Fields? then p.deltas else map[]
  }

  function WithFlag(p: Payload, field: string, flag: bool): Payload {
    Fields(FieldsOf(p)[field := Bool(flag)])
  }

  /** The op-log keeps the client's verb; only the projection sees the CRUD form. */
  function NormalizePushAction(action: string, p: Payload): (string, Payload) {
    if action == "USER_ARCHIVE" then ("UPDATE", WithFlag(p, "isUserArchived", true))
    else if action == "USER_UNARCHIVE" then ("UPDATE", WithFlag(p, "isUserArchived", false))
    else if action == "RESTORE" then ("UPDATE", WithFlag(p, "isDeleted", false))
    else if action == "ACTIVATE_ARCHIVED" then ("UPDATE", WithFlag(p, "isArchived", false))
    else (action, p)
  }

  // ---- pre-flight ----------------------------------------------------------

  function ErrorOf<T>(r: Result<T, ValidationError>): Option<ValidationError> {
    if r.Err? then Some(r.error) else None
  }

  function FirstError(a: Option<ValidationError>, b: Option<ValidationError>): Option<ValidationError> {
    if a.Some? then a else b
  }

  function DateError(env: Env, value: Json): Option<ValidationError> {
    if value.Null? then None else ErrorOf(ParseInstant(env, value, "transactionDate"))
  }

  /** Every delta check the projection would run, without touching a row. */
  function ValidateEntityDeltas(env: Env, entityType: string, action: string, p: Payload): Option<ValidationError> {
    if !IsSyncableEntityType(entityType) || p.NoPayload? then None
    else
      var d := FieldsOf(p);
      if action == "CREATE" then
        if entityType == "contact" then
          FirstError(ErrorOf(RequireString(Get(d, "ledgerId"), "ledgerId", ENTITY_ID_MAX_LENGTH)),
                     ErrorOf(OptionalMoney(Get(d, "creditLimit"), "creditLimit")))
        else if entityType == "transaction" then
          FirstError(ErrorOf(RequireString(Get(d, "contactId"), "contactId", ENTITY_ID_MAX_LENGTH)),
                     FirstError(ErrorOf(RequireMoney(Get(d, "amount"), "amount")),
                                DateError(env, Get(d, "transactionDate"))))
        else None
      else if action != "UPDATE" then None
      else if entityType == "contact" then
        ErrorOf(OptionalMoney(Get(d, "creditLimit"), "creditLimit"))
      else if entityType == "transaction" then
        FirstError(ErrorOf(OptionalMoney(Get(d, "amount"), "amount")), DateError(env, Get(d, "transactionDate")))
      else None
  }

  // ---- projection ----------------------------------------------------------

  datatype Table = Ledgers | Contacts | Transactions

  datatype Key = Key(table: Table, id: string)

  /** A stored column value; a number that is no number is stored as nothing. */
  datatype Cell =
    | NullCell
    | Text(s: string)
    | Number(r: Option<real>)
    | Flag(b: bool)
    | Money(n: int)
    | Instant(ms: int)
    | Ref(id: string)

  /** The columns of the three tables that the projection writes. */
  datatype Column =
    | Name | Type | Icon | Color | SortOrder | LedgerId | Phone | Notes | CreditLimit | CreditCurrency | AvatarColor
    | ContactId | Amount | Currency | Description | ItemName | TransactionDate | AttachmentPath
    | IsDeleted | IsArchived | IsUserArchived | CarryForwardTargetLedgerId | DeletedAt | ServerUpdatedAt

  type Cols = map<Column, Cell>

  datatype EntityApplyOutcome = Applied | SkippedNoDeltas | SkippedStale | SkippedMissing

  /** What one op does to the mirror once its deltas are accepted. */
  datatype Effect =
    | NoEffect(outcome: EntityApplyOutcome)
    | Upsert(key: Key, cols: Cols)
    | Patch(key: Key, cols: Cols)

  function TableOf(entityType: string): Table
    requires IsSyncableEntityType(entityType)
  {
    if entityType == "ledger" then Ledgers else if entityType == "contact" then Contacts else Transactions
  }

  predicate Truthy(v: Json) {
    match v
    case Null => false
    case Bool(b) => b
    case Int(n) => n != 0
    case Fraction(_) => true
    case Str(s) => s != ""
    case Composite(_) => true
  }

  function OrElse(v: Json, default: Json): Json {
    if v.Null? then default else v
  }

  /** String(v): a string stays itself. */
  function TextOf(env: Env, v: Json): Cell {
    Text(if v.Str? then v.s else env.toText(v))
  }

  /** Number(v): an integer stays itself. */
  function NumberOf(env: Env, v: Json): Cell {
    Number(if v.Int? then Some(v.n as real) else env.toNumber(v))
  }

  function OptionalText(env: Env, v: Json): Cell {
    if v.Null? then NullCell else TextOf(env, v)
  }

  /** The fields each table reads from the deltas. */
  datatype LedgerFields = LedgerFields(name: Json, kind: Json, icon: Json, color: Json, sortOrder: Json,
                                       isUserArchived: Json, isDeleted: Json, isArchived: Json,
                                       carryForwardTargetLedgerId: Json)

  datatype ContactFields = ContactFields(ledgerId: Json, name: Json, phone: Json, notes: Json, creditLimit: Json,
                                         creditCurrency: Json, avatarColor: Json, isDeleted: Json, isArchived: Json)

  datatype TransactionFields = TransactionFields(contactId: Json, kind: Json, amount: Json, currency: Json,
                                                 description: Json, itemName: Json, transactionDate: Json,
                                                 attachmentPath: Json, isDeleted: Json, isArchived: Json)

  function LedgerFieldsOf(d: Deltas): LedgerFields {
    LedgerFields(Get(d, "name"), Get(d, "type"), Get(d, "icon"), Get(d, "color"), Get(d, "sortOrder"),
                 Get(d, "isUserArchived"), Get(d, "isDeleted"), Get(d, "isArchived"),
                 Get(d, "carryForwardTargetLedgerId"))
  }

  function ContactFieldsOf(d: Deltas): ContactFields {
    ContactFields(Get(d, "ledgerId"), Get(d, "name"), Get(d, "phone"), Get(d, "notes"), Get(d, "creditLimit"),
                  Get(d, "creditCurrency"), Get(d, "avatarColor"), Get(d, "isDeleted"), Get(d, "isArchived"))
  }

  function TransactionFieldsOf(d: Deltas): TransactionFields {
    TransactionFields(Get(d, "contactId"), Get(d, "type"), Get(d, "amount"), Get(d, "currency"),
                      Get(d, "description"), Get(d, "itemName"), Get(d, "transactionDate"), Get(d, "attachmentPath"),
                      Get(d, "isDeleted"), Get(d, "isArchived"))
  }

  /** The columns a write assigns, and nothing else. */
  function ColsOf(at: Column -> Option<Cell>): Cols {
    map c: Column | at(c).Some? :: at(c).value
  }

  function LedgerRow(env: Env, f: LedgerFields, serverUpdatedAt: int, c: Column): Option<Cell> {
    match c
    case Name => Some(TextOf(env, OrElse(f.name, Str(""))))
    case Type => Some(TextOf(env, OrElse(f.kind, Str("personal"))))
    case Icon => Some(TextOf(env, OrElse(f.icon, Str("store"))))
    case Color => Some(TextOf(env, OrElse(f.color, Str("#6E6E76"))))
    case SortOrder => Some(NumberOf(env, OrElse(f.sortOrder, Int(0))))
    case ServerUpdatedAt => Some(Instant(serverUpdatedAt))
    case _ => None
  }

  function CreateLedger(env: Env, f: LedgerFields, serverUpdatedAt: int): Cols {
    ColsOf(c => LedgerRow(env, f, serverUpdatedAt, c))
  }

  function ContactRow(env: Env, f: ContactFields, ledgerId: string, limit: Option<int>, serverUpdatedAt: int,
                      c: Column): Option<Cell> {
    match c
    case LedgerId => Some(Ref(ledgerId))
    case Name => Some(TextOf(env, OrElse(f.name, Str(""))))
    case Phone => Some(OptionalText(env, f.phone))
    case Notes => Some(OptionalText(env, f.notes))
    case CreditLimit => Some(if limit.Some? then Money(limit.value) else NullCell)
    case CreditCurrency => Some(OptionalText(env, f.creditCurrency))
    case AvatarColor => Some(TextOf(env, OrElse(f.avatarColor, Str("#6E6E76"))))
    case ServerUpdatedAt => Some(Instant(serverUpdatedAt))
    case _ => None
  }

  function CreateContact(env: Env, f: ContactFields, serverUpdatedAt: int): Result<Cols, ValidationError> {
    match RequireString(f.ledgerId, "ledgerId", ENTITY_ID_MAX_LENGTH)
    case Err(e) => Err(e)
    case Ok(ledgerId) =>
      match OptionalMoney(f.creditLimit, "creditLimit")
      case Err(e) => Err(e)
      case Ok(limit) => Ok(ColsOf(c => ContactRow(env, f, ledgerId, limit, serverUpdatedAt, c)))
  }

  function TransactionRow(env: Env, f: TransactionFields, contactId: string, amount: int, when: int,
                          serverUpdatedAt: int, c: Column): Option<Cell> {
    match c
    case ContactId => Some(Ref(contactId))
    case Type => Some(TextOf(env, OrElse(f.kind, Str("debt"))))
    case Amount => Some(Money(amount))
    case Currency => Some(TextOf(env, OrElse(f.currency, Str("YER"))))
    case Description => Some(OptionalText(env, f.description))
    case ItemName => Some(OptionalText(env, f.itemName))
    case TransactionDate => Some(Instant(when))
    case AttachmentPath => Some(OptionalText(env, f.attachmentPath))
    case ServerUpdatedAt => Some(Instant(serverUpdatedAt))
    case _ => None
  }

  /** The given date, or the default of an undated transaction. */
  function DateOf(env: Env, date: Json, otherwise: int): Result<int, ValidationError> {
    if date.Null? then Ok(otherwise) else ParseInstant(env, date, "transactionDate")
  }

  function CreateTransaction(env: Env, f: TransactionFields, serverUpdatedAt: int): Result<Cols, ValidationError> {
    match RequireString(f.contactId, "contactId", ENTITY_ID_MAX_LENGTH)
    case Err(e) => Err(e)
    case Ok(contactId) =>
      match RequireMoney(f.amount, "amount")
      case Err(e) => Err(e)
      case Ok(amount) =>
        match DateOf(env, f.transactionDate, serverUpdatedAt)
        case Err(e) => Err(e)
        case Ok(when) => Ok(ColsOf(c => TransactionRow(env, f, contactId, amount, when, serverUpdatedAt, c)))
  }

  function CreateCols(env: Env, entityType: string, d: Deltas, serverUpdatedAt: int): Result<Cols, ValidationError>
    requires IsSyncableEntityType(entityType)
  {
    if entityType == "ledger" then Ok(CreateLedger(env, LedgerFieldsOf(d), serverUpdatedAt))
    else if entityType == "contact" then CreateContact(env, ContactFieldsOf(d), serverUpdatedAt)
    else CreateTransaction(env, TransactionFieldsOf(d), serverUpdatedAt)
  }

  function TextIf(env: Env, v: Json): Option<Cell> {
    if v.Null? then None else Some(TextOf(env, v))
  }

  function FlagIf(v: Json): Option<Cell> {
    if v.Null? then None else Some(Flag(Truthy(v)))
  }

  function MoneyIf(amount: Option<int>): Option<Cell> {
    if amount.Some? then Some(Money(amount.value)) else None
  }

  function LedgerPatch(env: Env, f: LedgerFields, serverUpdatedAt: int, c: Column): Option<Cell> {
    match c
    case ServerUpdatedAt => Some(Instant(serverUpdatedAt))
    case Name => TextIf(env, f.name)
    case Icon => TextIf(env, f.icon)
    case Color => TextIf(env, f.color)
    case SortOrder => if f.sortOrder.Null? then None else Some(NumberOf(env, f.sortOrder))
    case IsUserArchived => FlagIf(f.isUserArchived)
    case IsDeleted => FlagIf(f.isDeleted)
    case IsArchived => FlagIf(f.isArchived)
    case CarryForwardTargetLedgerId => TextIf(env, f.carryForwardTargetLedgerId)
    case _ => None
  }

  function UpdateLedger(env: Env, f: LedgerFields, serverUpdatedAt: int): Cols {
    ColsOf(c => LedgerPatch(env, f, serverUpdatedAt, c))
  }

  function ContactPatch(env: Env, f: ContactFields, limit: Option<int>, serverUpdatedAt: int, c: Column): Option<Cell> {
    match c
    case ServerUpdatedAt => Some(Instant(serverUpdatedAt))
    case Name => TextIf(env, f.name)
    case Phone => TextIf(env, f.phone)
    case Notes => TextIf(env, f.notes)
    case CreditLimit => MoneyIf(limit)
    case CreditCurrency => TextIf(env, f.creditCurrency)
    case AvatarColor => TextIf(env, f.avatarColor)
    case IsDeleted => FlagIf(f.isDeleted)
    case IsArchived => FlagIf(f.isArchived)
    case _ => None
  }

  function UpdateContact(env: Env, f: ContactFields, serverUpdatedAt: int): Result<Cols, ValidationError> {
    match OptionalMoney(f.creditLimit, "creditLimit")
    case Err(e) => Err(e)
    case Ok(limit) => Ok(ColsOf(c => ContactPatch(env, f, limit, serverUpdatedAt, c)))
  }

  function TransactionPatch(env: Env, f: TransactionFields, amount: Option<int>, when: int, serverUpdatedAt: int,
                            c: Column): Option<Cell> {
    match c
    case ServerUpdatedAt => Some(Instant(serverUpdatedAt))
    case Type => TextIf(env, f.kind)
    case Amount => MoneyIf(amount)
    case Currency => TextIf(env, f.currency)
    case Description => TextIf(env, f.description)
    case ItemName => TextIf(env, f.itemName)
    case TransactionDate => if f.transactionDate.Null? then None else Some(Instant(when))
    case IsDeleted => FlagIf(f.isDeleted)
    case IsArchived => FlagIf(f.isArchived)
    case _ => None
  }

  function UpdateTransaction(env: Env, f: TransactionFields, serverUpdatedAt: int): Result<Cols, ValidationError> {
    match OptionalMoney(f.amount, "amount")
    case Err(e) => Err(e)
    case Ok(amount) =>
      match DateOf(env, f.transactionDate, serverUpdatedAt)
      case Err(e) => Err(e)
      case Ok(when) => Ok(ColsOf(c => TransactionPatch(env, f, amount, when, serverUpdatedAt, c)))
  }

  function UpdateCols(env: Env, entityType: string, d: Deltas, serverUpdatedAt: int): Result<Cols, ValidationError>
    requires IsSyncableEntityType(entityType)
  {
    if entityType == "ledger" then Ok(UpdateLedger(env, LedgerFieldsOf(d), serverUpdatedAt))
    else if entityType == "contact" then UpdateContact(env, ContactFieldsOf(d), serverUpdatedAt)
    else UpdateTransaction(env, TransactionFieldsOf(d), serverUpdatedAt)
  }

  /** `if (!deltas)` lets every record pass, and of the bare values the truthy ones. */
  predicate Passes(p: Payload) {
    p.Fields? || (p.Bare? && Truthy(p.v))
  }

  /** The branch structure of applyEntityOp, up to the row write. */
  function EffectOf(env: Env, entityType: string, entityId: string, action: string, p: Payload,
                    serverUpdatedAt: int): Result<Effect, ValidationError>
  {
    if !IsSyncableEntityType(entityType) then Ok(NoEffect(SkippedMissing))
    else
      var key := Key(TableOf(entityType), entityId);
      if action == "CREATE" then
        if !Passes(p) then Ok(NoEffect(SkippedNoDeltas))
        else
          match CreateCols(env, entityType, FieldsOf(p), serverUpdatedAt)
          case Err(e) => Err(e)
          case Ok(cols) => Ok(Upsert(key, cols))
      else if action == "UPDATE" then
        if !Passes(p) then Ok(NoEffect(SkippedNoDeltas))
        else
          match UpdateCols(env, entityType, FieldsOf(p), serverUpdatedAt)
          case Err(e) => Err(e)
          case Ok(cols) => Ok(Patch(key, cols))
      else if action == "DELETE" then
        Ok(Patch(key, map[IsDeleted := Flag(true),
                          DeletedAt := Instant(serverUpdatedAt),
                          ServerUpdatedAt := Instant(serverUpdatedAt)]))
      else Ok(NoEffect(SkippedMissing))
  }

  /** A falsy payload that is not null: the check reads it, the projection skips it. */
  predicate SkippedButChecked(entityType: string, action: string, p: Payload) {
    p.Bare? && !Truthy(p.v) && action == "CREATE" && (entityType == "contact" || entityType == "transaction")
  }

  lemma NothingRequired(env: Env)
    ensures ErrorOf(RequireString(Get(map[], "ledgerId"), "ledgerId", ENTITY_ID_MAX_LENGTH)).Some?
    ensures ErrorOf(RequireString(Get(map[], "contactId"), "contactId", ENTITY_ID_MAX_LENGTH)).Some?
    ensures ErrorOf(OptionalMoney(Get(map[], "creditLimit"), "creditLimit")).None?
    ensures ErrorOf(OptionalMoney(Get(map[], "amount"), "amount")).None?
            && DateError(env, Get(map[], "transactionDate")).None?
  {
  }

  /** The checks of a creation or an edit are those of its pre-flight. */
  lemma ChecksAgree(env: Env, entityType: string, p: Payload, serverUpdatedAt: int)
    requires IsSyncableEntityType(entityType) && !p.NoPayload?
    ensures ErrorOf(CreateCols(env, entityType, FieldsOf(p), serverUpdatedAt))
            == ValidateEntityDeltas(env, entityType, "CREATE", p)
    ensures ErrorOf(UpdateCols(env, entityType, FieldsOf(p), serverUpdatedAt))
            == ValidateEntityDeltas(env, entityType, "UPDATE", p)
  {
    hide RequireString, IsValidMoneyAmount, ParseInstant, Get;
  }

  lemma OneOpExactIff(env: Env, entityType: string, entityId: string, action: string, p: Payload, serverUpdatedAt: int)
    ensures var raised := ErrorOf(EffectOf(env, entityType, entityId, action, p, serverUpdatedAt));
            var refused := ValidateEntityDeltas(env, entityType, action, p);
            && (raised == refused <==> !SkippedButChecked(entityType, action, p))
            && (refused.None? ==> raised.None?)
  {
    if IsSyncableEntityType(entityType) && !p.NoPayload? {
      ChecksAgree(env, entityType, p, serverUpdatedAt);
      NothingRequired(env);
    }
    hide RequireString, OptionalMoney, RequireMoney, DateError, CreateCols, UpdateCols, Get;
  }

  /**
   * For every verb and payload, the pre-flight check raises what the projection
   * raises, whatever time the op is stamped with, with one exact exception: a
   * contact or transaction created from a falsy payload is refused by the check,
   * although its projection would have skipped it without an error.
   */
  lemma PreflightExactIff(env: Env, entityType: string, entityId: string, verb: string, payload: Payload,
                          serverUpdatedAt: int)
    ensures var (action, p) := NormalizePushAction(verb, payload);
            var raised := ErrorOf(EffectOf(env, entityType, entityId, action, p, serverUpdatedAt));
            var refused := ValidateEntityDeltas(env, entityType, action, p);
            && (raised == refused <==> !SkippedButChecked(entityType, verb, payload))
            && (refused.None? ==> raised.None?)
  {
    var (action, p) := NormalizePushAction(verb, payload);
    OneOpExactIff(env, entityType, entityId, action, p, serverUpdatedAt);
    hide EffectOf, ValidateEntityDeltas, ErrorOf, Truthy;
  }

  /** The input that shows it: field_deltas 0 on the creation of a contact. */
  lemma ZeroPayloadIsRefused(env: Env, entityId: string, serverUpdatedAt: int)
    ensures ValidateEntityDeltas(env, "contact", "CREATE", Bare(Int(0))) == Some(InvalidField("ledgerId"))
    ensures EffectOf(env, "contact", entityId, "CREATE", Bare(Int(0)), serverUpdatedAt) == Ok(NoEffect(SkippedNoDeltas))
  {
  }
}
