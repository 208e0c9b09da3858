/** The database schema the client is generated against: the three enumerations,
    the constant lists that enumerate them, and the Row / Insert shapes of the
    tables the core reads and writes. Timestamps are modelled as natural numbers
    (a point on the database clock) rather than ISO strings, so that
    `order by created_at` is an order on numbers. */
module Types {
  import opened Wrappers

  type Uuid = string

  // ---------------------------------------------------------------- enums

  datatype ListingStatus = Active | Sold | Removed
  datatype AppRole = Admin | Moderator | User
  datatype PaymentStatus = Pending | Success | Failed

  /** `Constants.public.Enums.*`: the enumerations' values, in declaration order. */
  const ListingStatusNames: seq<string> := ["active", "sold", "removed"]
  const AppRoleNames: seq<string> := ["admin", "moderator", "user"]
  const PaymentStatusNames: seq<string> := ["pending", "success", "failed"]

  /** The enumerations' members, in the same order as the constant lists. */
  const AllListingStatuses: seq<ListingStatus> := [Active, Sold, Removed]
  const AllAppRoles: seq<AppRole> := [Admin, Moderator, User]
  const AllPaymentStatuses: seq<PaymentStatus> := [Pending, Success, Failed]

  function StatusName(s: ListingStatus): string {
    match s
    case Active => "active"
    case Sold => "sold"
    case Removed => "removed"
  }

  /** Reading a status column: exactly the three listed names are statuses. */
  function StatusFromName(name: string): (r: Option<ListingStatus>)
    ensures r.Some? <==> name in ListingStatusNames
    ensures r.Some? ==> StatusName(r.value) == name
  {
    if name == "active" then Some(Active)
    else if name == "sold" then Some(Sold)
    else if name == "removed" then Some(Removed)
    else None
  }

  function RoleName(r: AppRole): string {
    match r
    case Admin => "admin"
    case Moderator => "moderator"
    case User => "user"
  }

  function RoleFromName(name: string): (r: Option<AppRole>)
    ensures r.Some? <==> name in AppRoleNames
    ensures r.Some? ==> RoleName(r.value) == name
  {
    if name == "admin" then Some(Admin)
    else if name == "moderator" then Some(Moderator)
    else if name == "user" then Some(User)
    else None
  }

  function PaymentStatusName(p: PaymentStatus): string {
    match p
    case Pending => "pending"
    case Success => "success"
    case Failed => "failed"
  }

  function PaymentStatusFromName(name: string): (r: Option<PaymentStatus>)
    ensures r.Some? <==> name in PaymentStatusNames
    ensures r.Some? ==> PaymentStatusName(r.value) == name
  {
    if name == "pending" then Some(Pending)
    else if name == "success" then Some(Success)
    else if name == "failed" then Some(Failed)
    else None
  }

  /** The constant lists name the enumerations' members one for one, in order,
      and each name reads back as its member. */
  lemma ConstantsListEnums()
    ensures |ListingStatusNames| == |AllListingStatuses| == 3
    ensures forall i :: 0 <= i < 3 ==>
      StatusName(AllListingStatuses[i]) == ListingStatusNames[i]
      && StatusFromName(ListingStatusNames[i]) == Some(AllListingStatuses[i])
    ensures |AppRoleNames| == |AllAppRoles| == 3
    ensures forall i :: 0 <= i < 3 ==>
      RoleName(AllAppRoles[i]) == AppRoleNames[i]
      && RoleFromName(AppRoleNames[i]) == Some(AllAppRoles[i])
    ensures |PaymentStatusNames| == |AllPaymentStatuses| == 3
    ensures forall i :: 0 <= i < 3 ==>
      PaymentStatusName(AllPaymentStatuses[i]) == PaymentStatusNames[i]
      && PaymentStatusFromName(PaymentStatusNames[i]) == Some(AllPaymentStatuses[i])
  {
  }

  /** Every member of each enumeration is listed (the enumerations are closed). */
  lemma EnumsAreListed(s: ListingStatus, r: AppRole, p: PaymentStatus)
    ensures s in AllListingStatuses && StatusFromName(StatusName(s)) == Some(s)
    ensures r in AllAppRoles && RoleFromName(RoleName(r)) == Some(r)
    ensures p in AllPaymentStatuses && PaymentStatusFromName(PaymentStatusName(p)) == Some(p)
  {
  }

  // ---------------------------------------------------------------- rows

  /** `listings.Row`. `price` is the stored number; how the form's text
      becomes it is not part of this model. */
  datatype ListingRow = ListingRow(
    id: Uuid,
    user_id: Uuid,
    title: string,
    description: string,
    price: real,
    category: string,
    location: string,
    contact_number: string,
    images: seq<string>,
    status: ListingStatus,
    created_at: nat,
    updated_at: nat)

  /** `listings.Insert`: `user_id`, `title`, `price` and `category` are
      required, every other column is optional. */
  datatype ListingInsert = ListingInsert(
    user_id: Uuid,
    title: string,
    price: real,
    category: string,
    id: Option<Uuid>,
    description: Option<string>,
    location: Option<string>,
    contact_number: Option<string>,
    images: Option<seq<string>>,
    status: Option<ListingStatus>,
    created_at: Option<nat>,
    updated_at: Option<nat>)

  /** The column defaults the database fills in for an omitted optional column:
      a fresh id, the current time, empty text, no images, and status `active`. */
  const DefaultStatus: ListingStatus := Active

  /** An insert that gives only the four required columns. */
  function MinimalInsert(user_id: Uuid, title: string, price: real, category: string): ListingInsert {
    ListingInsert(user_id, title, price, category, None, None, None, None, None, None, None, None)
  }

  /** The row an accepted insert stores: given columns are kept, omitted ones
      take their defaults (`freshId` and `now` are the database's). */
  function FromInsert(ins: ListingInsert, freshId: Uuid, now: nat): ListingRow {
    ListingRow(
      ins.id.GetOr(freshId),
      ins.user_id,
      ins.title,
      ins.description.GetOr(""),
      ins.price,
      ins.category,
      ins.location.GetOr(""),
      ins.contact_number.GetOr(""),
      ins.images.GetOr([]),
      ins.status.GetOr(DefaultStatus),
      ins.created_at.GetOr(now),
      ins.updated_at.GetOr(now))
  }

  /** The insert that gives every column of `row` explicitly. */
  function ToInsert(row: ListingRow): ListingInsert {
    ListingInsert(row.user_id, row.title, row.price, row.category, Some(row.id),
      Some(row.description), Some(row.location), Some(row.contact_number),
      Some(row.images), Some(row.status), Some(row.created_at), Some(row.updated_at))
  }

  /** Inserting a full row stores exactly that row, whatever the defaults. */
  lemma InsertRoundTrip(row: ListingRow, freshId: Uuid, now: nat)
    ensures FromInsert(ToInsert(row), freshId, now) == row
  {
  }

  /** An insert of the required columns alone yields an active listing with no
      images, no description, no location and no contact number. */
  lemma MinimalInsertDefaults(user_id: Uuid, title: string, price: real, category: string, freshId: Uuid, now: nat)
    ensures var row := FromInsert(MinimalInsert(user_id, title, price, category), freshId, now);
      row.status == Active && row.images == [] && row.id == freshId
      && row.description == "" && row.location == "" && row.contact_number == ""
      && row.created_at == now && row.updated_at == now
      && row.user_id == user_id && row.title == title && row.price == price && row.category == category
  {
  }

  /** `profiles.Row`. The balance is a plain number column: nothing in the
      client keeps it non-negative. */
  datatype ProfileRow = ProfileRow(
    id: Uuid,
    user_id: Uuid,
    name: string,
    email: string,
    phone: Option<string>,
    listing_credits: int,
    created_at: nat,
    updated_at: nat)

  /** `listing_packs.Row`. */
  datatype ListingPackRow = ListingPackRow(
    id: Uuid,
    name: string,
    credits: int,
    price_inr: int,
    display_price: string,
    is_active: bool,
    sort_order: int,
    created_at: nat)

  /** `transactions.Row`; `pack_id` is nullable and refers to `listing_packs.id`. */
  datatype TransactionRow = TransactionRow(
    id: Uuid,
    user_id: Uuid,
    amount_paise: int,
    credits_added: int,
    pack_id: Option<Uuid>,
    payment_status: PaymentStatus,
    razorpay_order_id: Option<string>,
    razorpay_payment_id: Option<string>,
    created_at: nat)

  /** `user_roles.Row`. */
  datatype UserRoleRow = UserRoleRow(id: Uuid, user_id: Uuid, role: AppRole)

  /** Following `transactions_pack_id_fkey`: the pack a transaction refers to,
      if it names one and such a pack exists. */
  function PackOf(t: TransactionRow, packs: seq<ListingPackRow>): (r: Option<ListingPackRow>)
    ensures t.pack_id.None? ==> r.None?
    ensures r.Some? ==> r.value in packs && t.pack_id == Some(r.value.id)
    ensures r.None? && t.pack_id.Some? ==> forall p :: p in packs ==> p.id != t.pack_id.value
  {
    if t.pack_id.None? || packs == [] then None
    else if packs[0].id == t.pack_id.value then Some(packs[0])
    else PackOf(t, packs[1..])
  }
}
