/** The room catalogue page (`app/components/rooms/rooms.tsx`): the filter
    panel, the search box, the sort selector, the comparison selection and
    the favourites, and the filter-and-sort effect that recomputes the list
    of rooms shown. The icon and image-path helpers are shared with the room
    detail page. */
module Rooms {
  import opened Seqs
  import opened Strings
  import opened Sorting
  import opened Data

  // ---------------------------------------------------------------------
  // Filtering

  /** The filter panel. A numeric field is `None` while its text box is
      empty and `Some(v)` once it holds the digits of `v`. */
  datatype Filters = Filters(
    minPrice: Option<int>,
    maxPrice: Option<int>,
    capacity: Option<int>,
    amenities: seq<string>,
    available: bool,
    featured: bool)

  /** The initial panel, and the one `clearFilters` restores. */
  const NoFilters := Filters(None, None, None, [], false, false)

  /** The lower-cased search term occurs in the title or the description. */
  predicate MatchesSearch(room: Room, term: string)
  {
    Contains(Lower(room.title), Lower(term)) || Contains(Lower(room.description), Lower(term))
  }

  /** The conjunction computed for each room by the filter effect. */
  predicate Keeps(room: Room, term: string, f: Filters)
  {
    && MatchesSearch(room, term)
    && (f.minPrice.None? || room.price >= f.minPrice.value)
    && (f.maxPrice.None? || room.price <= f.maxPrice.value)
    && (f.capacity.None? || room.capacity >= f.capacity.value)
    && (|f.amenities| == 0 || forall a | a in f.amenities :: HasAmenity(room, a))
    && (!f.available || room.available)
    && (!f.featured || room.featured)
  }

  /** `rooms.filter(...)`: a room is kept exactly when it passes every
      filter, and the kept rooms stay in catalogue order. */
  function FilterRooms(rooms: seq<Room>, term: string, f: Filters): (r: seq<Room>)
    ensures forall x :: x in r <==> x in rooms && Keeps(x, term, f)
    ensures forall x | x in r :: MatchesSearch(x, term)
    ensures forall x | x in r :: f.minPrice.Some? ==> x.price >= f.minPrice.value
    ensures forall x | x in r :: f.maxPrice.Some? ==> x.price <= f.maxPrice.value
    ensures forall x | x in r :: f.capacity.Some? ==> x.capacity >= f.capacity.value
    ensures forall x, a | x in r && a in f.amenities :: HasAmenity(x, a)
    ensures forall x | x in r :: (f.available ==> x.available) && (f.featured ==> x.featured)
    ensures SubseqOf(r, rooms)
  {
    Filter(rooms, (room: Room) => Keeps(room, term, f))
  }

  /** With an empty search term and a cleared panel every room is shown. */
  lemma FilterRoomsOpen(rooms: seq<Room>)
    ensures FilterRooms(rooms, "", NoFilters) == rooms
  {
    forall i | 0 <= i < |rooms| ensures Keeps(rooms[i], "", NoFilters) {
      ContainsEmpty(Lower(rooms[i].title));
    }
    FilterAll(rooms, (room: Room) => Keeps(room, "", NoFilters));
  }

  /** Filtering the shown rooms again with the same panel changes nothing. */
  lemma FilterRoomsIdempotent(rooms: seq<Room>, term: string, f: Filters)
    ensures FilterRooms(FilterRooms(rooms, term, f), term, f) == FilterRooms(rooms, term, f)
  {
    FilterIdempotent(rooms, (room: Room) => Keeps(room, term, f));
  }

  // ---------------------------------------------------------------------
  // Sorting

  datatype SortKey = PriceAsc | PriceDesc | ByCapacity | BySize | ByName

  /** `parseInt(s)` for the room sizes: leading white space, an optional
      sign, then the leading digits; a text without digits reads as 0. */
  function LeadingInt(s: string): int
  {
    var t := s[LeadingSpaces(s)..];
    if t != [] && t[0] == '-' then -(Digits(t[1..], 0).0 as int)
    else if t != [] && t[0] == '+' then Digits(t[1..], 0).0
    else Digits(t, 0).0
  }

  /** The comparator of the sort effect, by sort key. */
  function Compare(key: SortKey, a: Room, b: Room): int
  {
    match key
    case PriceAsc => a.price - b.price
    case PriceDesc => b.price - a.price
    case ByCapacity => b.capacity - a.capacity
    case BySize => LeadingInt(b.size) - LeadingInt(a.size)
    case ByName => LexCompare(a.title, b.title)
  }

  /** `a` is placed before `b` exactly when the comparator is negative. */
  function RoomBefore(key: SortKey): (Room, Room) -> bool
  {
    (a: Room, b: Room) => Compare(key, a, b) < 0
  }

  /** Every comparator of the page is consistent. */
  lemma RoomBeforeStrictWeakOrder(key: SortKey)
    ensures StrictWeakOrder(RoomBefore(key))
  {
    if key == ByName {
      CharCodeStrictWeakOrder();
      var before := RoomBefore(key);
      forall a: Room, b: Room ensures before(a, b) == CharCodeBefore()(a.title, b.title) {
      }
    }
  }

  /** The sorted list shown for a key. */
  function SortRooms(rooms: seq<Room>, key: SortKey): seq<Room>
  {
    InsertionSort(rooms, RoomBefore(key))
  }

  /** The sorted list is a permutation of the filtered one, ordered by the
      chosen key. */
  lemma SortRoomsOrdered(rooms: seq<Room>, key: SortKey)
    ensures var r := SortRooms(rooms, key);
            && multiset(r) == multiset(rooms)
            && (key == PriceAsc ==> forall i, j :: 0 <= i < j < |r| ==> r[i].price <= r[j].price)
            && (key == PriceDesc ==> forall i, j :: 0 <= i < j < |r| ==> r[i].price >= r[j].price)
            && (key == ByCapacity ==> forall i, j :: 0 <= i < j < |r| ==> r[i].capacity >= r[j].capacity)
            && (key == BySize ==>
                  forall i, j :: 0 <= i < j < |r| ==> LeadingInt(r[i].size) >= LeadingInt(r[j].size))
            && (key == ByName ==> forall i, j :: 0 <= i < j < |r| ==> !LexLess(r[j].title, r[i].title))
  {
    RoomBeforeStrictWeakOrder(key);
    SortedResult(rooms, RoomBefore(key));
    SortPermutes(rooms, RoomBefore(key));
  }

  /** Rooms that tie under the key keep their relative order. */
  lemma SortRoomsStable(rooms: seq<Room>, key: SortKey, z: Room)
    ensures Filter(SortRooms(rooms, key), TiedWith(RoomBefore(key), z)) ==
            Filter(rooms, TiedWith(RoomBefore(key), z))
  {
    RoomBeforeStrictWeakOrder(key);
    SortStable(rooms, RoomBefore(key), z);
  }

  // ---------------------------------------------------------------------
  // Icons and image paths

  datatype AmenityIcon = Wifi | Tv | Waves | Shield | Car | Coffee | Phone | Plane | Check

  /** The test `getAmenityIcon` makes for each icon, on the lower-cased
      amenity; the check mark is the fallback and has no test. */
  predicate AmenityHit(icon: AmenityIcon, text: string)
  {
    match icon
    case Wifi => Contains(text, "wifi")
    case Tv => Contains(text, "tv")
    case Waves => Contains(text, "aire") || Contains(text, "acondicionado")
    case Shield => Contains(text, "seguridad") || Contains(text, "caja")
    case Car => Contains(text, "parqueadero") || Contains(text, "parking")
    case Coffee => Contains(text, "minibar") || Contains(text, "bar")
    case Phone => Contains(text, "servicio") && Contains(text, "habitación")
    case Plane => Contains(text, "transporte") || Contains(text, "aeropuerto")
    case Check => false
  }

  /** The position of an icon's test in the chain. */
  function AmenityRank(icon: AmenityIcon): nat
  {
    match icon
    case Wifi => 0
    case Tv => 1
    case Waves => 2
    case Shield => 3
    case Car => 4
    case Coffee => 5
    case Phone => 6
    case Plane => 7
    case Check => 8
  }

  /** `getAmenityIcon`: the icon returned passes its test on the
      lower-cased amenity and no icon tested before it does; the check
      mark means that no test passes. */
  function AmenityIconOf(amenity: string): (r: AmenityIcon)
    ensures r != Check ==> AmenityHit(r, Lower(amenity))
    ensures forall e: AmenityIcon :: AmenityRank(e) < AmenityRank(r) ==> !AmenityHit(e, Lower(amenity))
  {
    var text := Lower(amenity);
    if AmenityHit(Wifi, text) then Wifi
    else if AmenityHit(Tv, text) then Tv
    else if AmenityHit(Waves, text) then Waves
    else if AmenityHit(Shield, text) then Shield
    else if AmenityHit(Car, text) then Car
    else if AmenityHit(Coffee, text) then Coffee
    else if AmenityHit(Phone, text) then Phone
    else if AmenityHit(Plane, text) then Plane
    else Check
  }

  /** An icon whose test passes is tested no later than the one shown, so
      the check mark appears only when every test fails. */
  lemma AmenityIconFirstMatch(amenity: string, e: AmenityIcon)
    requires AmenityHit(e, Lower(amenity))
    ensures AmenityRank(AmenityIconOf(amenity)) <= AmenityRank(e)
    ensures AmenityIconOf(amenity) != Check
  {
  }

  /** An amenity mentioning both "caja" and "bar" gets the shield: the
      safe-box test comes before the minibar test. */
  lemma AmenityIconSafeBeforeBar(amenity: string)
    requires Contains(Lower(amenity), "caja") && Contains(Lower(amenity), "bar")
    requires !Contains(Lower(amenity), "wifi") && !Contains(Lower(amenity), "tv")
    requires !Contains(Lower(amenity), "aire") && !Contains(Lower(amenity), "acondicionado")
    ensures AmenityIconOf(amenity) == Shield
  {
  }

  /** `getImagePath`: both replacements put back what they find, so the
      path is returned unchanged. */
  function ImagePath(path: string): (r: string)
    ensures r == path
  {
    ReplaceSelf(path, "/");
    ReplaceSelf(path, ".jpeg");
    ReplaceFirst(ReplaceFirst(path, "/", "/"), ".jpeg", ".jpeg")
  }

  // ---------------------------------------------------------------------
  // Page state

  /** The state of the page once the catalogue is loaded. */
  class RoomsPage {
    var rooms: seq<Room>
    var filteredRooms: seq<Room>
    var searchTerm: string
    var sortBy: SortKey
    var selectedRooms: seq<int>
    var favoriteRooms: seq<int>
    var filters: Filters

    /** The loaded catalogue is shown as is until the effect runs. */
    constructor (catalogue: seq<Room>)
      ensures rooms == catalogue && filteredRooms == catalogue
      ensures searchTerm == "" && sortBy == PriceAsc && filters == NoFilters
      ensures selectedRooms == [] && favoriteRooms == []
    {
      rooms := catalogue;
      filteredRooms := catalogue;
      searchTerm := "";
      sortBy := PriceAsc;
      selectedRooms := [];
      favoriteRooms := [];
      filters := NoFilters;
    }

    /** The filter-and-sort effect: filters the catalogue, sorts the result
      in place with the chosen comparator and shows it. */
    method ApplyFiltersAndSort()
      modifies this
      ensures filteredRooms == SortRooms(FilterRooms(rooms, searchTerm, filters), sortBy)
      ensures rooms == old(rooms) && searchTerm == old(searchTerm) && sortBy == old(sortBy)
      ensures filters == old(filters)
      ensures selectedRooms == old(selectedRooms) && favoriteRooms == old(favoriteRooms)
    {
      var filtered := FilterRooms(rooms, searchTerm, filters);
      var a := new Room[|filtered|](i requires 0 <= i < |filtered| => filtered[i]);
      assert a[..] == filtered;
      SortInPlace(a, RoomBefore(sortBy));
      filteredRooms := a[..];
    }

    method SetSearchTerm(term: string)
      modifies this
      ensures searchTerm == term
      ensures rooms == old(rooms) && filteredRooms == old(filteredRooms) && sortBy == old(sortBy)
      ensures filters == old(filters)
      ensures selectedRooms == old(selectedRooms) && favoriteRooms == old(favoriteRooms)
    {
      searchTerm := term;
    }

    method SetSortBy(key: SortKey)
      modifies this
      ensures sortBy == key
      ensures rooms == old(rooms) && filteredRooms == old(filteredRooms) && searchTerm == old(searchTerm)
      ensures filters == old(filters)
      ensures selectedRooms == old(selectedRooms) && favoriteRooms == old(favoriteRooms)
    {
      sortBy := key;
    }

    /** `clearFilters`: the panel and the search box are reset; the sort
        key, the selection and the favourites are kept. */
    method ClearFilters()
      modifies this
      ensures filters == NoFilters && searchTerm == ""
      ensures rooms == old(rooms) && filteredRooms == old(filteredRooms) && sortBy == old(sortBy)
      ensures selectedRooms == old(selectedRooms) && favoriteRooms == old(favoriteRooms)
    {
      filters := NoFilters;
      searchTerm := "";
    }

    /** `toggleAmenityFilter`: only the amenity list of the panel changes. */
    method ToggleAmenityFilter(amenity: string)
      modifies this
      ensures filters == old(filters).(amenities := Toggle(old(filters.amenities), amenity))
      ensures old(NoDuplicates(filters.amenities)) ==> NoDuplicates(filters.amenities)
      ensures rooms == old(rooms) && filteredRooms == old(filteredRooms) && sortBy == old(sortBy)
      ensures searchTerm == old(searchTerm)
      ensures selectedRooms == old(selectedRooms) && favoriteRooms == old(favoriteRooms)
    {
      if NoDuplicates(filters.amenities) {
        ToggleNoDuplicates(filters.amenities, amenity);
      }
      filters := filters.(amenities := Toggle(filters.amenities, amenity));
    }

    /** `toggleRoomSelection`: adds or removes a room from the comparison. */
    method ToggleRoomSelection(roomId: int)
      modifies this
      ensures selectedRooms == Toggle(old(selectedRooms), roomId)
      ensures old(NoDuplicates(selectedRooms)) ==> NoDuplicates(selectedRooms)
      ensures rooms == old(rooms) && filteredRooms == old(filteredRooms) && sortBy == old(sortBy)
      ensures searchTerm == old(searchTerm) && filters == old(filters)
      ensures favoriteRooms == old(favoriteRooms)
    {
      if NoDuplicates(selectedRooms) {
        ToggleNoDuplicates(selectedRooms, roomId);
      }
      selectedRooms := Toggle(selectedRooms, roomId);
    }

    /** `toggleFavorite`: adds or removes a room from the favourites. */
    method ToggleFavorite(roomId: int)
      modifies this
      ensures favoriteRooms == Toggle(old(favoriteRooms), roomId)
      ensures old(NoDuplicates(favoriteRooms)) ==> NoDuplicates(favoriteRooms)
      ensures rooms == old(rooms) && filteredRooms == old(filteredRooms) && sortBy == old(sortBy)
      ensures searchTerm == old(searchTerm) && filters == old(filters)
      ensures selectedRooms == old(selectedRooms)
    {
      if NoDuplicates(favoriteRooms) {
        ToggleNoDuplicates(favoriteRooms, roomId);
      }
      favoriteRooms := Toggle(favoriteRooms, roomId);
    }

    /** The "clear selection" buttons of the comparison bar. */
    method ClearSelection()
      modifies this
      ensures selectedRooms == []
      ensures rooms == old(rooms) && filteredRooms == old(filteredRooms) && sortBy == old(sortBy)
      ensures searchTerm == old(searchTerm) && filters == old(filters)
      ensures favoriteRooms == old(favoriteRooms)
    {
      selectedRooms := [];
    }
  }
}
