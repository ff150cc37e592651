/** The rows of the inventory database (models.py). Each table is keyed by an
    integer primary key in the store, so the rows below carry no `id` of their own.
    Money and quantities are `Numeric(10, 2)` columns, modelled as exact reals.
    Timestamps are whole seconds on an abstract clock. */
module Models {
  import opened Wrappers

  /** A planned budget line (`items`). */
  datatype Item = Item(
    code: Option<string>,
    name: string,
    category: string,            // 'materials' or 'labour', stored lower-cased
    unit: Option<string>,
    qty: real,                   // NOT NULL, default 0
    unitCost: Option<real>,
    budget: Option<string>,      // a budget label such as "Budget 1 - Flats(Woods)"
    section: Option<string>,
    grp: Option<string>,
    buildingType: Option<string>,
    projectSite: Option<string>  // None: the item belongs to no site
  )

  /** Python truthiness of a numeric column: `None` and zero are false. */
  predicate NonZero(x: Option<real>) {
    x.Some? && x.value != 0.0
  }

  /** The `amount` property: `qty * unit_cost` when both are truthy, else `0.0`. */
  function Amount(item: Item): real {
    if item.qty != 0.0 && NonZero(item.unitCost) then item.qty * item.unitCost.value else 0.0
  }

  /** `amount` is always the product of the quantity and the unit cost, a missing
      unit cost counting as zero: the zero cases of the property agree with it. */
  lemma AmountIsProduct(item: Item)
    ensures Amount(item) == item.qty * item.unitCost.GetOr(0.0)
    ensures item.qty == 0.0 || !NonZero(item.unitCost) ==> Amount(item) == 0.0
  {
  }

  /** The three values the `status` column takes. */
  datatype Status = Pending | Approved | Rejected

  /** A material or labour request against an item (`requests`). */
  datatype Request = Request(
    section: string,
    itemId: int,
    qty: real,
    requestedBy: string,
    note: string,
    status: Status,
    approvedBy: Option<string>,
    currentPrice: Option<real>,
    buildingType: Option<string>,
    budget: Option<string>,
    projectSite: Option<string>,
    createdAt: int,
    updatedAt: int
  )

  /** The `notification_type` values the routes write. */
  datatype NotificationKind = NewRequest | Approval | Rejection

  /** A notification (`notifications`). `userId` None addresses every global
      administrator; `requestId` refers to a request; `delete_request` deletes a request's
      notifications with it, while the bulk delete of requests leaves them. */
  datatype Notification = Notification(
    kind: NotificationKind,
    userId: Option<int>,
    requestId: Option<int>,
    isRead: bool
  )

  /** A recorded actual cost (`actuals`). `notes` carries "Request #<id>" when the
      row was produced by approving that request. `actualDate` is the day number
      of the request's creation (`strftime('%Y-%m-%d')`). */
  datatype Actual = Actual(
    itemId: int,
    actualQty: real,
    actualCost: real,
    actualDate: Option<int>,
    recordedBy: Option<string>,
    notes: Option<string>,
    projectSite: Option<string>
  )

  /** A tenant (`project_sites`); the name is unique. */
  datatype ProjectSite = ProjectSite(name: string, description: Option<string>)

  /** The `code_type` values the routes write and read. */
  datatype CodeType = GlobalAdminCode | ProjectSiteCode

  /** A password hash, opaque to the model. */
  datatype Hash = Hash(digest: string)

  /** An access code (`access_codes`): the hash and, for display to administrators,
      the plaintext. */
  datatype AccessCode = AccessCode(
    codeType: CodeType,
    projectSite: Option<string>,
    codeHash: Hash,
    displayCode: Option<string>,
    updatedAt: int
  )

  datatype LogStatus = Success | Failed

  /** One audited login attempt (`access_logs`). */
  datatype AccessLog = AccessLog(
    user: Option<string>,
    role: Option<string>,
    accessCode: Option<string>,
    status: LogStatus,
    createdAt: int
  )

  /** Blocks and units per building type of a site (`building_type_configs`). */
  datatype BuildingTypeConfig = BuildingTypeConfig(
    buildingType: string,
    blocks: int,
    unitsPerBlock: int,
    notes: Option<string>,
    projectSite: Option<string>,
    updatedAt: int
  )
}
