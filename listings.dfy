/** Listings: creation with its validation and defaults, the owner-only partial
    update and delete, the id and image-index bounds of the two read endpoints,
    and the sort whitelist of the public listing query. */
module Listings {
  import opened Common
  import opened Text
  import opened Database

  // ---------------------------------------------------------------- addListing

  /** The body of addListing; "" stands for an absent text field, `isActive` is
      None when not sent, `images` are the uploaded files. */
  datatype NewListing = NewListing(productType: string, quantity: Input<real>, unit: string,
                                   price: Input<real>, harvestDate: string, description: string,
                                   location: string, contactInfo: string,
                                   isActive: Option<bool>, images: seq<Image>)

  /** The account may add listings: it exists and is a farmer's. */
  predicate IsFarmer(users: map<nat, User>, id: nat) {
    id in users && users[id].userType == Farmer
  }

  /** addListing's checks in the handler's order, and the row it inserts under
      the next serial `id`. */
  function CheckNewListing(users: map<nat, User>, farmerId: nat, req: NewListing, id: nat): (r: Result<Listing>)
    ensures (req.productType == "" || req.quantity.Missing? || req.unit == "" || req.price.Missing?
             || req.harvestDate == "") ==> r == Err(Error(400, ListingFieldsRequired))
    ensures (req.productType != "" && req.unit != "" && req.harvestDate != "" && req.price.Given?
             && req.quantity.Given? && !Positive(req.quantity)) ==> r == Err(Error(400, InvalidQuantity))
    ensures (req.productType != "" && req.unit != "" && req.harvestDate != "" && req.price.Given?
             && Positive(req.quantity) && !Positive(req.price)) ==> r == Err(Error(400, InvalidPrice))
    ensures r.Ok? <==>
              && req.productType != "" && req.unit != "" && req.harvestDate != ""
              && Positive(req.quantity) && Positive(req.price) && IsFarmer(users, farmerId)
    ensures (req.productType != "" && req.unit != "" && req.harvestDate != ""
             && Positive(req.quantity) && Positive(req.price) && !IsFarmer(users, farmerId))
            ==> r == Err(Error(403, FarmersOnly))
    ensures r.Ok? ==>
              && r.value == Listing(id, farmerId, req.productType, req.quantity.parsed.value, req.unit,
                                    req.price.parsed.value, req.harvestDate, req.description, req.location,
                                    req.contactInfo, req.isActive.None? || req.isActive.value, req.images)
              && r.value.quantity > 0.0 && r.value.price > 0.0
  {
    if req.productType == "" || req.quantity.Missing? || req.unit == "" || req.price.Missing?
       || req.harvestDate == "" then
      Err(Error(400, ListingFieldsRequired))
    else if !Positive(req.quantity) then Err(Error(400, InvalidQuantity))
    else if !Positive(req.price) then Err(Error(400, InvalidPrice))
    else if !IsFarmer(users, farmerId) then Err(Error(403, FarmersOnly))
    else
      Ok(Listing(id, farmerId, req.productType, req.quantity.parsed.value, req.unit,
                 req.price.parsed.value, req.harvestDate, req.description, req.location,
                 req.contactInfo, if req.isActive.Some? then req.isActive.value else true,
                 req.images))
  }

  /** addListing: inserts exactly one listing, or nothing. */
  method AddListing(db: Store, farmerId: nat, req: NewListing) returns (r: Result<Listing>)
    requires db.Valid()
    modifies db`listings, db`nextListing
    ensures db.Valid()
    ensures r == CheckNewListing(old(db.users), farmerId, req, old(db.nextListing))
    ensures r.Ok? ==> db.listings == old(db.listings)[r.value.id := r.value] && r.value.id !in old(db.listings)
    ensures r.Err? ==> db.listings == old(db.listings) && db.nextListing == old(db.nextListing)
  {
    r := CheckNewListing(db.users, farmerId, req, db.nextListing);
    if r.Ok? {
      db.listings := db.listings[db.nextListing := r.value];
      db.nextListing := db.nextListing + 1;
    }
  }

  // ---------------------------------------------------------------- updateListing

  /** The body of updateListing. `None` is a field left undefined; a supplied
      quantity or price carries what parseFloat made of it; `images` are the
      uploaded files (none uploaded: empty). */
  datatype Patch = Patch(productType: Option<string>, quantity: Option<Option<real>>,
                         unit: Option<string>, price: Option<Option<real>>,
                         harvestDate: Option<string>, description: Option<string>,
                         location: Option<string>, contactInfo: Option<string>,
                         isActive: Option<bool>, images: seq<Image>)

  /** A supplied number that is NaN or not above zero. */
  predicate BadNumber(x: Option<Option<real>>) {
    x.Some? && (x.value.None? || x.value.value <= 0.0)
  }

  /** Nothing is supplied, so no SET clause would be built. */
  predicate EmptyPatch(p: Patch) {
    && p.productType.None? && p.quantity.None? && p.unit.None? && p.price.None?
    && p.harvestDate.None? && p.description.None? && p.location.None?
    && p.contactInfo.None? && p.isActive.None? && |p.images| == 0
  }

  /** One `column = $n` clause of the UPDATE. */
  datatype Assignment =
    | SetProductType(s: string) | SetQuantity(q: real) | SetUnit(s: string) | SetPrice(p: real)
    | SetHarvestDate(s: string) | SetDescription(s: string) | SetLocation(s: string)
    | SetContactInfo(s: string) | SetActive(b: bool) | SetImages(images: seq<Image>)

  function Assign(l: Listing, a: Assignment): Listing {
    match a
    case SetProductType(s) => l.(productType := s)
    case SetQuantity(q) => l.(quantity := q)
    case SetUnit(s) => l.(unit := s)
    case SetPrice(p) => l.(price := p)
    case SetHarvestDate(s) => l.(harvestDate := s)
    case SetDescription(s) => l.(description := s)
    case SetLocation(s) => l.(location := s)
    case SetContactInfo(s) => l.(contactInfo := s)
    case SetActive(b) => l.(isActive := b)
    case SetImages(images) => l.(images := images)
  }

  /** The row after `UPDATE listings SET <fields>`: the clauses applied in order. */
  function AssignAll(l: Listing, fields: seq<Assignment>): Listing
    decreases |fields|
  {
    if fields == [] then l else Assign(AssignAll(l, fields[..|fields| - 1]), fields[|fields| - 1])
  }

  function Or<T>(o: Option<T>, default: T): T {
    if o.Some? then o.value else default
  }

  /** The listing with exactly the supplied fields replaced. */
  function ApplyPatch(l: Listing, p: Patch): (r: Listing)
    requires !BadNumber(p.quantity) && !BadNumber(p.price)
    ensures r.id == l.id && r.farmerId == l.farmerId
    ensures r.quantity > 0.0 || p.quantity.None?
    ensures r.price > 0.0 || p.price.None?
  {
    l.(productType := Or(p.productType, l.productType),
       quantity := if p.quantity.Some? then p.quantity.value.value else l.quantity,
       unit := Or(p.unit, l.unit),
       price := if p.price.Some? then p.price.value.value else l.price,
       harvestDate := Or(p.harvestDate, l.harvestDate),
       description := Or(p.description, l.description),
       location := Or(p.location, l.location),
       contactInfo := Or(p.contactInfo, l.contactInfo),
       isActive := Or(p.isActive, l.isActive),
       images := if |p.images| > 0 then p.images else l.images)
  }

  /** A field that is not supplied keeps its value; a supplied one takes it.
      The images are replaced only when new files were uploaded. */
  lemma PatchChangesOnlySupplied(l: Listing, p: Patch)
    requires !BadNumber(p.quantity) && !BadNumber(p.price)
    ensures var r := ApplyPatch(l, p);
            && r.id == l.id && r.farmerId == l.farmerId
            && r.productType == (if p.productType.Some? then p.productType.value else l.productType)
            && r.quantity == (if p.quantity.Some? then p.quantity.value.value else l.quantity)
            && r.unit == (if p.unit.Some? then p.unit.value else l.unit)
            && r.price == (if p.price.Some? then p.price.value.value else l.price)
            && r.harvestDate == (if p.harvestDate.Some? then p.harvestDate.value else l.harvestDate)
            && r.description == (if p.description.Some? then p.description.value else l.description)
            && r.location == (if p.location.Some? then p.location.value else l.location)
            && r.contactInfo == (if p.contactInfo.Some? then p.contactInfo.value else l.contactInfo)
            && r.isActive == (if p.isActive.Some? then p.isActive.value else l.isActive)
            && r.images == (if |p.images| > 0 then p.images else l.images)
    ensures EmptyPatch(p) ==> ApplyPatch(l, p) == l
  {
  }

  /** The listing exists and belongs to the caller. */
  predicate Owns(listings: map<nat, Listing>, farmerId: nat, id: nat) {
    id in listings && listings[id].farmerId == farmerId
  }

  /** The updatable columns, in the order updateListing tests them. */
  datatype Column =
    | ProductTypeColumn | QuantityColumn | UnitColumn | PriceColumn | HarvestDateColumn
    | DescriptionColumn | LocationColumn | ContactInfoColumn | ActiveColumn | ImagesColumn

  /** The clause a column contributes: present when the field is supplied (when
      new files were uploaded, for the images). */
  function ClauseFor(patch: Patch, column: Column): Option<Assignment> {
    match column
    case ProductTypeColumn =>
      if patch.productType.Some? then Some(SetProductType(patch.productType.value)) else None
    case QuantityColumn =>
      if patch.quantity.Some? && patch.quantity.value.Some? then Some(SetQuantity(patch.quantity.value.value)) else None
    case UnitColumn => if patch.unit.Some? then Some(SetUnit(patch.unit.value)) else None
    case PriceColumn =>
      if patch.price.Some? && patch.price.value.Some? then Some(SetPrice(patch.price.value.value)) else None
    case HarvestDateColumn =>
      if patch.harvestDate.Some? then Some(SetHarvestDate(patch.harvestDate.value)) else None
    case DescriptionColumn =>
      if patch.description.Some? then Some(SetDescription(patch.description.value)) else None
    case LocationColumn =>
      if patch.location.Some? then Some(SetLocation(patch.location.value)) else None
    case ContactInfoColumn =>
      if patch.contactInfo.Some? then Some(SetContactInfo(patch.contactInfo.value)) else None
    case ActiveColumn =>
      if patch.isActive.Some? then Some(SetActive(patch.isActive.value)) else None
    case ImagesColumn => if |patch.images| > 0 then Some(SetImages(patch.images)) else None
  }

  function Present(clause: Option<Assignment>): (fields: seq<Assignment>)
    ensures |fields| <= 1 && (|fields| == 0 <==> clause.None?)
    ensures clause.Some? ==> fields == [clause.value]
  {
    if clause.Some? then [clause.value] else []
  }

  /** The SET list of updateListing: one clause per supplied field, in the
      handler's order, or the first refusal of a bad quantity or price. */
  function SetClauses(patch: Patch): (r: Result<seq<Assignment>>)
    ensures BadNumber(patch.quantity) ==> r == Err(Error(400, InvalidQuantity))
    ensures !BadNumber(patch.quantity) && BadNumber(patch.price) ==> r == Err(Error(400, InvalidPrice))
    ensures r.Ok? <==> !BadNumber(patch.quantity) && !BadNumber(patch.price)
    ensures r.Ok? ==> |r.value| <= 10 && (|r.value| == 0 <==> EmptyPatch(patch))
  {
    if BadNumber(patch.quantity) then Err(Error(400, InvalidQuantity))
    else if BadNumber(patch.price) then Err(Error(400, InvalidPrice))
    else Ok(Present(ClauseFor(patch, ProductTypeColumn))
            + Present(ClauseFor(patch, QuantityColumn))
            + Present(ClauseFor(patch, UnitColumn))
            + Present(ClauseFor(patch, PriceColumn))
            + Present(ClauseFor(patch, HarvestDateColumn))
            + Present(ClauseFor(patch, DescriptionColumn))
            + Present(ClauseFor(patch, LocationColumn))
            + Present(ClauseFor(patch, ContactInfoColumn))
            + Present(ClauseFor(patch, ActiveColumn))
            + Present(ClauseFor(patch, ImagesColumn)))
  }

  /** The row with one column of the patch applied. */
  function ApplyColumn(row: Listing, patch: Patch, column: Column): Listing {
    match column
    case ProductTypeColumn => row.(productType := Or(patch.productType, row.productType))
    case QuantityColumn =>
      row.(quantity := if patch.quantity.Some? && patch.quantity.value.Some? then patch.quantity.value.value else row.quantity)
    case UnitColumn => row.(unit := Or(patch.unit, row.unit))
    case PriceColumn =>
      row.(price := if patch.price.Some? && patch.price.value.Some? then patch.price.value.value else row.price)
    case HarvestDateColumn => row.(harvestDate := Or(patch.harvestDate, row.harvestDate))
    case DescriptionColumn => row.(description := Or(patch.description, row.description))
    case LocationColumn => row.(location := Or(patch.location, row.location))
    case ContactInfoColumn => row.(contactInfo := Or(patch.contactInfo, row.contactInfo))
    case ActiveColumn => row.(isActive := Or(patch.isActive, row.isActive))
    case ImagesColumn => row.(images := if |patch.images| > 0 then patch.images else row.images)
  }

  /** Appending a column's clause applies that column. */
  lemma AssignColumn(l: Listing, fields: seq<Assignment>, patch: Patch, column: Column)
    ensures AssignAll(l, fields + Present(ClauseFor(patch, column)))
            == ApplyColumn(AssignAll(l, fields), patch, column)
  {
    var more := Present(ClauseFor(patch, column));
    if more == [] {
      assert fields + more == fields;
    } else {
      assert (fields + more)[..|fields|] == fields;
    }
  }

  /** The patch applied column by column, in the handler's order. */
  function ApplyColumns(l: Listing, patch: Patch): Listing {
    var r := l;
    var r := ApplyColumn(r, patch, ProductTypeColumn);
    var r := ApplyColumn(r, patch, QuantityColumn);
    var r := ApplyColumn(r, patch, UnitColumn);
    var r := ApplyColumn(r, patch, PriceColumn);
    var r := ApplyColumn(r, patch, HarvestDateColumn);
    var r := ApplyColumn(r, patch, DescriptionColumn);
    var r := ApplyColumn(r, patch, LocationColumn);
    var r := ApplyColumn(r, patch, ContactInfoColumn);
    var r := ApplyColumn(r, patch, ActiveColumn);
    var r := ApplyColumn(r, patch, ImagesColumn);
    r
  }

  /** Applying the columns one after another is applying the whole patch. */
  lemma ColumnsArePatch(l: Listing, patch: Patch)
    requires !BadNumber(patch.quantity) && !BadNumber(patch.price)
    ensures ApplyColumns(l, patch) == ApplyPatch(l, patch)
  {
    var r1 := ApplyColumn(l, patch, ProductTypeColumn);
    var r2 := ApplyColumn(r1, patch, QuantityColumn);
    var r3 := ApplyColumn(r2, patch, UnitColumn);
    var r4 := ApplyColumn(r3, patch, PriceColumn);
    var r5 := ApplyColumn(r4, patch, HarvestDateColumn);
    var r6 := ApplyColumn(r5, patch, DescriptionColumn);
    var r7 := ApplyColumn(r6, patch, LocationColumn);
    var r8 := ApplyColumn(r7, patch, ContactInfoColumn);
    var r9 := ApplyColumn(r8, patch, ActiveColumn);
    var r10 := ApplyColumn(r9, patch, ImagesColumn);
    assert r10 == ApplyColumns(l, patch);
    assert r10 == ApplyPatch(l, patch);
  }

  /** Running the SET list of a valid patch gives the patched listing. */
  lemma {:induction false} SetClausesApply(l: Listing, patch: Patch)
    requires !BadNumber(patch.quantity) && !BadNumber(patch.price)
    ensures AssignAll(l, SetClauses(patch).value) == ApplyPatch(l, patch)
  {
    var fields: seq<Assignment> := [];
    var row := l;
    AssignColumn(l, fields, patch, ProductTypeColumn);
    fields, row := fields + Present(ClauseFor(patch, ProductTypeColumn)), ApplyColumn(row, patch, ProductTypeColumn);
    AssignColumn(l, fields, patch, QuantityColumn);
    fields, row := fields + Present(ClauseFor(patch, QuantityColumn)), ApplyColumn(row, patch, QuantityColumn);
    AssignColumn(l, fields, patch, UnitColumn);
    fields, row := fields + Present(ClauseFor(patch, UnitColumn)), ApplyColumn(row, patch, UnitColumn);
    AssignColumn(l, fields, patch, PriceColumn);
    fields, row := fields + Present(ClauseFor(patch, PriceColumn)), ApplyColumn(row, patch, PriceColumn);
    AssignColumn(l, fields, patch, HarvestDateColumn);
    fields, row := fields + Present(ClauseFor(patch, HarvestDateColumn)), ApplyColumn(row, patch, HarvestDateColumn);
    AssignColumn(l, fields, patch, DescriptionColumn);
    fields, row := fields + Present(ClauseFor(patch, DescriptionColumn)), ApplyColumn(row, patch, DescriptionColumn);
    AssignColumn(l, fields, patch, LocationColumn);
    fields, row := fields + Present(ClauseFor(patch, LocationColumn)), ApplyColumn(row, patch, LocationColumn);
    AssignColumn(l, fields, patch, ContactInfoColumn);
    fields, row := fields + Present(ClauseFor(patch, ContactInfoColumn)), ApplyColumn(row, patch, ContactInfoColumn);
    AssignColumn(l, fields, patch, ActiveColumn);
    fields, row := fields + Present(ClauseFor(patch, ActiveColumn)), ApplyColumn(row, patch, ActiveColumn);
    AssignColumn(l, fields, patch, ImagesColumn);
    fields, row := fields + Present(ClauseFor(patch, ImagesColumn)), ApplyColumn(row, patch, ImagesColumn);
    assert fields == SetClauses(patch).value;
    assert row == ApplyColumns(l, patch);
    ColumnsArePatch(l, patch);
  }

  /** `updateFields.push(...)` with `paramCount++`, for a column whose field was
      supplied; nothing for one left undefined. */
  method Push(fields: seq<Assignment>, paramCount: nat, clause: Option<Assignment>)
    returns (more: seq<Assignment>, count: nat)
    ensures more == fields + Present(clause)
    ensures count == paramCount + |Present(clause)|
  {
    more, count := fields, paramCount;
    if clause.Some? {
      more, count := more + [clause.value], count + 1;
    }
  }

  /** updateListing's construction of the SET list: column by column, in the
      handler's order, a supplied field appends its clause and bumps the
      parameter counter; a bad quantity or price ends the request as soon as
      it is met. */
  method BuildSetClauses(patch: Patch) returns (r: Result<seq<Assignment>>, paramCount: nat)
    ensures r == SetClauses(patch)
    ensures r.Ok? ==> paramCount == |r.value|
  {
    var fields: seq<Assignment> := [];
    paramCount := 0;
    fields, paramCount := Push(fields, paramCount, ClauseFor(patch, ProductTypeColumn));
    assert fields == Present(ClauseFor(patch, ProductTypeColumn));
    if BadNumber(patch.quantity) {
      return Err(Error(400, InvalidQuantity)), paramCount;
    }
    fields, paramCount := Push(fields, paramCount, ClauseFor(patch, QuantityColumn));
    fields, paramCount := Push(fields, paramCount, ClauseFor(patch, UnitColumn));
    if BadNumber(patch.price) {
      return Err(Error(400, InvalidPrice)), paramCount;
    }
    fields, paramCount := Push(fields, paramCount, ClauseFor(patch, PriceColumn));
    fields, paramCount := Push(fields, paramCount, ClauseFor(patch, HarvestDateColumn));
    fields, paramCount := Push(fields, paramCount, ClauseFor(patch, DescriptionColumn));
    fields, paramCount := Push(fields, paramCount, ClauseFor(patch, LocationColumn));
    fields, paramCount := Push(fields, paramCount, ClauseFor(patch, ContactInfoColumn));
    fields, paramCount := Push(fields, paramCount, ClauseFor(patch, ActiveColumn));
    fields, paramCount := Push(fields, paramCount, ClauseFor(patch, ImagesColumn));
    assert fields == SetClauses(patch).value;
    r := Ok(fields);
  }

  /** updateListing: the ownership check, the SET clauses, and one UPDATE when
      there is at least one clause. */
  method UpdateListing(db: Store, farmerId: nat, id: nat, patch: Patch) returns (r: Result<Listing>)
    requires db.Valid()
    modifies db`listings
    ensures db.Valid()
    ensures !Owns(old(db.listings), farmerId, id) ==> r == Err(Error(404, ListingNotFoundOrNotYours))
    ensures Owns(old(db.listings), farmerId, id) && BadNumber(patch.quantity)
            ==> r == Err(Error(400, InvalidQuantity))
    ensures Owns(old(db.listings), farmerId, id) && !BadNumber(patch.quantity) && BadNumber(patch.price)
            ==> r == Err(Error(400, InvalidPrice))
    ensures (Owns(old(db.listings), farmerId, id) && !BadNumber(patch.quantity) && !BadNumber(patch.price)
             && EmptyPatch(patch)) ==> r == Err(Error(400, NothingToUpdate))
    ensures r.Ok? <==> (Owns(old(db.listings), farmerId, id) && !BadNumber(patch.quantity)
                        && !BadNumber(patch.price) && !EmptyPatch(patch))
    ensures r.Ok? ==> r.value == ApplyPatch(old(db.listings)[id], patch)
                      && db.listings == old(db.listings)[id := r.value]
    ensures r.Err? ==> db.listings == old(db.listings)
  {
    if !Owns(db.listings, farmerId, id) {
      return Err(Error(404, ListingNotFoundOrNotYours));
    }
    var listing := db.listings[id];
    var clauses, _ := BuildSetClauses(patch);
    if clauses.Err? {
      return Err(clauses.error);
    }
    if |clauses.value| == 0 {
      return Err(Error(400, NothingToUpdate));
    }
    var updated := AssignAll(listing, clauses.value);
    SetClausesApply(listing, patch);
    db.listings := db.listings[id := updated];
    r := Ok(updated);
  }

  // ---------------------------------------------------------------- deleteListing

  /** deleteListing: removes the caller's listing and nothing else. */
  method DeleteListing(db: Store, farmerId: nat, id: nat) returns (r: Result<()>)
    requires db.Valid()
    modifies db`listings
    ensures db.Valid()
    ensures r.Ok? <==> Owns(old(db.listings), farmerId, id)
    ensures r.Err? ==> r.error == Error(404, ListingNotFoundOrNotYours) && db.listings == old(db.listings)
    ensures r.Ok? ==> db.listings == old(db.listings) - {id}
  {
    if !Owns(db.listings, farmerId, id) {
      return Err(Error(404, ListingNotFoundOrNotYours));
    }
    db.listings := db.listings - {id};
    r := Ok(());
  }

  // ---------------------------------------------------------------- reads

  /** getListingById: `parseInt(id, 10)` must be a positive integer; the listing
      is shown, active or not, while its farmer's account is active. */
  function ListingById(listings: map<nat, Listing>, users: map<nat, User>, id: Option<int>): (r: Result<Listing>)
    ensures (id.None? || id.value <= 0) ==> r == Err(Error(400, InvalidListingId))
    ensures r.Ok? <==> id.Some? && id.value > 0 && id.value in listings
                       && ActiveUser(users, listings[id.value].farmerId)
    ensures r.Ok? ==> r.value == listings[id.value]
    ensures r.Err? && id.Some? && id.value > 0 ==> r.error == Error(404, ListingNotFound)
  {
    if id.None? || id.value <= 0 then Err(Error(400, InvalidListingId))
    else if id.value !in listings || !ActiveUser(users, listings[id.value].farmerId) then
      Err(Error(404, ListingNotFound))
    else Ok(listings[id.value])
  }

  /** downloadImage: the listing must exist, the `parseInt` index must lie in
      0 <= i < the number of images, and the file must be on disk (`files`). */
  function ImageToDownload(listings: map<nat, Listing>, listingId: nat, index: Option<int>,
                           files: set<string>): (r: Result<Image>)
    ensures listingId !in listings ==> r == Err(Error(404, ImageNotFound))
    ensures (listingId in listings && (index.None? || index.value < 0
             || index.value >= |listings[listingId].images|)) ==> r == Err(Error(400, InvalidImageIndex))
    ensures r.Ok? <==> listingId in listings && index.Some?
                       && 0 <= index.value < |listings[listingId].images|
                       && listings[listingId].images[index.value].path in files
    ensures r.Ok? ==> r.value == listings[listingId].images[index.value]
  {
    if listingId !in listings then Err(Error(404, ImageNotFound))
    else if index.None? || index.value < 0 || index.value >= |listings[listingId].images| then
      Err(Error(400, InvalidImageIndex))
    else if listings[listingId].images[index.value].path !in files then
      Err(Error(404, ImageFileMissing))
    else Ok(listings[listingId].images[index.value])
  }

  const SortFields: seq<string> := ["created_at", "price", "harvest_date", "product_type"]

  /** The ORDER BY column of getAllListings: `sortBy` when whitelisted, else
      `created_at`. Only a whitelisted name ever reaches the query text. */
  function SortField(sortBy: string): (f: string)
    ensures f in SortFields
    ensures f == sortBy <==> sortBy in SortFields
    ensures sortBy !in SortFields ==> f == "created_at"
  {
    if sortBy in SortFields then sortBy else "created_at"
  }

  /** The ORDER BY direction: `sortOrder` upper-cased when that is ASC or DESC,
      else DESC. */
  function SortDirection(sortOrder: string): (d: string)
    ensures d == "ASC" || d == "DESC"
    ensures ToUpper(sortOrder) in ["ASC", "DESC"] ==> d == ToUpper(sortOrder)
    ensures ToUpper(sortOrder) !in ["ASC", "DESC"] ==> d == "DESC"
  {
    if ToUpper(sortOrder) in ["ASC", "DESC"] then ToUpper(sortOrder) else "DESC"
  }

  /** The direction ignores letter case: a `sortOrder` sorts the same way as its
      upper-cased and its lower-cased forms. */
  lemma SortDirectionIgnoresCase(sortOrder: string)
    ensures SortDirection(ToUpper(sortOrder)) == SortDirection(sortOrder)
    ensures SortDirection(ToLower(sortOrder)) == SortDirection(sortOrder)
  {
    ToUpperIgnoresCase(sortOrder);
  }

  /** "asc" sorts ascending and "Desc" descending; a longer word such as
      "ascending" falls back to DESC. */
  lemma SortDirectionExamples()
    ensures SortDirection("asc") == "ASC" && SortDirection("Desc") == "DESC"
    ensures SortDirection("ascending") == "DESC"
  {
    assert ToUpper("asc") == "ASC";
    assert ToUpper("Desc") == "DESC";
    assert ToUpper("ascending")[3] == 'E';
  }
}
