/** The simulated back end (`app/lib/data.ts`): query functions over the
    static collections of rooms, services, gallery images, testimonials and
    blog posts. The artificial `setTimeout` delays are dropped, so every
    query is a function of the collection it reads. */
module Data {
  import opened Seqs
  import opened Strings
  import opened Sorting

  datatype Room = Room(
    id: int,
    title: string,
    description: string,
    price: int,
    capacity: int,
    size: string,
    amenities: seq<string>,
    images: seq<string>,
    available: bool,
    featured: bool)

  datatype Service = Service(id: int, title: string, featured: bool)

  datatype GalleryImage = GalleryImage(id: int, title: string, category: string, featured: bool)

  datatype Testimonial = Testimonial(id: int, name: string, rating: int, featured: bool)

  datatype BlogPost = BlogPost(
    id: int,
    title: string,
    slug: string,
    excerpt: string,
    content: string,
    category: string,
    tags: seq<string>,
    featured: bool)

  // ---------------------------------------------------------------------
  // Flag filters

  /** `getFeaturedRooms`. */
  function FeaturedRooms(rooms: seq<Room>): (r: seq<Room>)
    ensures forall x :: x in r <==> x in rooms && x.featured
    ensures SubseqOf(r, rooms)
  {
    Filter(rooms, (room: Room) => room.featured)
  }

  /** `getAvailableRooms`. */
  function AvailableRooms(rooms: seq<Room>): (r: seq<Room>)
    ensures forall x :: x in r <==> x in rooms && x.available
    ensures SubseqOf(r, rooms)
  {
    Filter(rooms, (room: Room) => room.available)
  }

  /** `getFeaturedServices`. */
  function FeaturedServices(services: seq<Service>): (r: seq<Service>)
    ensures forall x :: x in r <==> x in services && x.featured
    ensures SubseqOf(r, services)
  {
    Filter(services, (service: Service) => service.featured)
  }

  /** `getFeaturedGalleryImages`. */
  function FeaturedGalleryImages(images: seq<GalleryImage>): (r: seq<GalleryImage>)
    ensures forall x :: x in r <==> x in images && x.featured
    ensures SubseqOf(r, images)
  {
    Filter(images, (image: GalleryImage) => image.featured)
  }

  /** `getFeaturedTestimonials`. */
  function FeaturedTestimonials(testimonials: seq<Testimonial>): (r: seq<Testimonial>)
    ensures forall x :: x in r <==> x in testimonials && x.featured
    ensures SubseqOf(r, testimonials)
  {
    Filter(testimonials, (t: Testimonial) => t.featured)
  }

  /** `getFeaturedBlogPosts`. */
  function FeaturedBlogPosts(posts: seq<BlogPost>): (r: seq<BlogPost>)
    ensures forall x :: x in r <==> x in posts && x.featured
    ensures SubseqOf(r, posts)
  {
    Filter(posts, (post: BlogPost) => post.featured)
  }

  // ---------------------------------------------------------------------
  // Lookups: `find(...) || null`

  /** `getRoomById`: the first room with that id, or none. */
  function RoomById(rooms: seq<Room>, id: int): (r: Option<Room>)
    ensures r.None? <==> forall i :: 0 <= i < |rooms| ==> rooms[i].id != id
    ensures r.Some? ==> exists i :: 0 <= i < |rooms| && rooms[i] == r.value && r.value.id == id &&
                                    forall j :: 0 <= j < i ==> rooms[j].id != id
  {
    FindFirst(rooms, (room: Room) => room.id == id)
  }

  /** `getServiceById`: the first service with that id, or none. */
  function ServiceById(services: seq<Service>, id: int): (r: Option<Service>)
    ensures r.None? <==> forall i :: 0 <= i < |services| ==> services[i].id != id
    ensures r.Some? ==> exists i :: 0 <= i < |services| && services[i] == r.value && r.value.id == id &&
                                    forall j :: 0 <= j < i ==> services[j].id != id
  {
    FindFirst(services, (service: Service) => service.id == id)
  }

  /** `getBlogPostBySlug`: the first post with that slug, or none. */
  function BlogPostBySlug(posts: seq<BlogPost>, slug: string): (r: Option<BlogPost>)
    ensures r.None? <==> forall i :: 0 <= i < |posts| ==> posts[i].slug != slug
    ensures r.Some? ==> exists i :: 0 <= i < |posts| && posts[i] == r.value && r.value.slug == slug &&
                                    forall j :: 0 <= j < i ==> posts[j].slug != slug
  {
    FindFirst(posts, (post: BlogPost) => post.slug == slug)
  }

  // ---------------------------------------------------------------------
  // Category filters and blog search

  /** `getGalleryImagesByCategory`: `'all'` returns every image, any other
      category the images whose category is exactly that string. */
  function GalleryImagesByCategory(images: seq<GalleryImage>, category: string): (r: seq<GalleryImage>)
    ensures category == "all" ==> r == images
    ensures category != "all" ==> forall x :: x in r <==> x in images && x.category == category
    ensures SubseqOf(r, images)
  {
    if category == "all" then
      FilterAll(images, (image: GalleryImage) => true);
      Filter(images, (image: GalleryImage) => true)
    else Filter(images, (image: GalleryImage) => image.category == category)
  }

  /** `getBlogPostsByCategory`: categories compared case-insensitively. */
  function BlogPostsByCategory(posts: seq<BlogPost>, category: string): (r: seq<BlogPost>)
    ensures forall x :: x in r <==> x in posts && Lower(x.category) == Lower(category)
    ensures SubseqOf(r, posts)
  {
    Filter(posts, (post: BlogPost) => Lower(post.category) == Lower(category))
  }

  /** The lower-cased query occurs in the lower-cased title, excerpt,
      content or one of the tags. */
  predicate PostMentions(post: BlogPost, query: string)
  {
    var q := Lower(query);
    || Contains(Lower(post.title), q)
    || Contains(Lower(post.excerpt), q)
    || Contains(Lower(post.content), q)
    || exists tag | tag in post.tags :: Contains(Lower(tag), q)
  }

  /** `searchBlogPosts`. */
  function SearchBlogPosts(posts: seq<BlogPost>, query: string): (r: seq<BlogPost>)
    ensures forall x :: x in r <==> x in posts && PostMentions(x, query)
    ensures SubseqOf(r, posts)
  {
    Filter(posts, (post: BlogPost) => PostMentions(post, query))
  }

  /** The empty query matches every post. */
  lemma SearchEmptyQuery(posts: seq<BlogPost>)
    ensures SearchBlogPosts(posts, "") == posts
  {
    forall i | 0 <= i < |posts| ensures PostMentions(posts[i], "") {
      ContainsEmpty(Lower(posts[i].title));
    }
    FilterAll(posts, (post: BlogPost) => PostMentions(post, ""));
  }

  // ---------------------------------------------------------------------
  // searchRooms

  /** Some amenity of the room includes `amenity`, ignoring case. */
  predicate HasAmenity(room: Room, amenity: string)
  {
    exists a | a in room.amenities :: Contains(Lower(a), Lower(amenity))
  }

  /** The optional fields of the `searchRooms` argument. */
  datatype RoomQuery = RoomQuery(
    minPrice: Option<int>,
    maxPrice: Option<int>,
    capacity: Option<int>,
    amenities: Option<seq<string>>)

  /** A numeric field constrains only when it is truthy: present and not 0. */
  predicate Truthy(bound: Option<int>)
  {
    bound.Some? && bound.value != 0
  }

  predicate MatchesQuery(room: Room, q: RoomQuery)
  {
    && !(Truthy(q.minPrice) && room.price < q.minPrice.value)
    && !(Truthy(q.maxPrice) && room.price > q.maxPrice.value)
    && !(Truthy(q.capacity) && room.capacity < q.capacity.value)
    && !(q.amenities.Some? && |q.amenities.value| > 0 &&
         !(forall a | a in q.amenities.value :: HasAmenity(room, a)))
  }

  /** `searchRooms`: exactly the rooms within every truthy bound that offer
      every requested amenity, in catalogue order. */
  function SearchRooms(rooms: seq<Room>, q: RoomQuery): (r: seq<Room>)
    ensures forall x :: x in r <==> x in rooms && MatchesQuery(x, q)
    ensures forall x | x in r :: Truthy(q.minPrice) ==> x.price >= q.minPrice.value
    ensures forall x | x in r :: Truthy(q.maxPrice) ==> x.price <= q.maxPrice.value
    ensures forall x | x in r :: Truthy(q.capacity) ==> x.capacity >= q.capacity.value
    ensures forall x, a | x in r && q.amenities.Some? && a in q.amenities.value :: HasAmenity(x, a)
    ensures SubseqOf(r, rooms)
  {
    Filter(rooms, (room: Room) => MatchesQuery(room, q))
  }

  /** A query with no truthy bound and no amenity returns every room. */
  lemma SearchRoomsUnconstrained(rooms: seq<Room>, q: RoomQuery)
    requires !Truthy(q.minPrice) && !Truthy(q.maxPrice) && !Truthy(q.capacity)
    requires q.amenities.None? || q.amenities.value == []
    ensures SearchRooms(rooms, q) == rooms
  {
    FilterAll(rooms, (room: Room) => MatchesQuery(room, q));
  }

  /** Queries that accept the same rooms return the same rooms. */
  lemma SearchRoomsAgree(rooms: seq<Room>, q1: RoomQuery, q2: RoomQuery)
    requires forall room :: MatchesQuery(room, q1) == MatchesQuery(room, q2)
    ensures SearchRooms(rooms, q1) == SearchRooms(rooms, q2)
  {
    FilterExt(rooms, (room: Room) => MatchesQuery(room, q1), (room: Room) => MatchesQuery(room, q2));
  }

  /** A bound of 0 is the same as no bound. */
  lemma SearchRoomsZeroBound(rooms: seq<Room>, q: RoomQuery)
    ensures SearchRooms(rooms, q.(minPrice := Some(0))) == SearchRooms(rooms, q.(minPrice := None))
    ensures SearchRooms(rooms, q.(maxPrice := Some(0))) == SearchRooms(rooms, q.(maxPrice := None))
    ensures SearchRooms(rooms, q.(capacity := Some(0))) == SearchRooms(rooms, q.(capacity := None))
  {
    SearchRoomsAgree(rooms, q.(minPrice := Some(0)), q.(minPrice := None));
    SearchRoomsAgree(rooms, q.(maxPrice := Some(0)), q.(maxPrice := None));
    SearchRoomsAgree(rooms, q.(capacity := Some(0)), q.(capacity := None));
  }

  // ---------------------------------------------------------------------
  // checkAvailability

  datatype Availability = Availability(available: bool, message: Option<string>)

  /** `checkAvailability`: the dates are not consulted. */
  function CheckAvailability(rooms: seq<Room>, roomId: int): (r: Availability)
    ensures (forall i :: 0 <= i < |rooms| ==> rooms[i].id != roomId) ==>
              r == Availability(false, Some("Habitación no encontrada"))
    ensures RoomById(rooms, roomId).Some? && !RoomById(rooms, roomId).value.available ==>
              r == Availability(false, Some("Habitación no disponible"))
    ensures RoomById(rooms, roomId).Some? && RoomById(rooms, roomId).value.available ==>
              r == Availability(true, None)
    ensures r.available <==> r.message.None?
  {
    match RoomById(rooms, roomId)
    case None => Availability(false, Some("Habitación no encontrada"))
    case Some(room) =>
      if !room.available then Availability(false, Some("Habitación no disponible"))
      else Availability(true, None)
  }

  // ---------------------------------------------------------------------
  // getRelatedRooms

  function Abs(x: int): nat
  {
    if x < 0 then -x else x
  }

  /** `Math.abs(room.price - price)`. */
  function PriceDistance(room: Room, price: int): nat
  {
    Abs(room.price - price)
  }

  /** The comparator `diffA - diffB`, read as "must come first". */
  function CloserTo(price: int): (Room, Room) -> bool
  {
    (a: Room, b: Room) => PriceDistance(a, price) - PriceDistance(b, price) < 0
  }

  lemma CloserToStrictWeakOrder(price: int)
    ensures StrictWeakOrder(CloserTo(price))
  {
  }

  /** The related-room candidates: every other available room. */
  function RelatedCandidates(rooms: seq<Room>, roomId: int): (r: seq<Room>)
    ensures forall x :: x in r <==> x in rooms && x.id != roomId && x.available
  {
    Filter(rooms, (room: Room) => room.id != roomId && room.available)
  }

  /** `getRelatedRooms(roomId, limit)`. */
  function RelatedRooms(rooms: seq<Room>, roomId: int, limit: nat): (r: seq<Room>)
    ensures RoomById(rooms, roomId).None? ==> r == []
    ensures |r| <= limit
    ensures forall x | x in r :: x in rooms && x.id != roomId && x.available
    ensures multiset(r) <= multiset(RelatedCandidates(rooms, roomId))
  {
    match RoomById(rooms, roomId)
    case None => []
    case Some(current) =>
      var c := RelatedCandidates(rooms, roomId);
      var s := InsertionSort(c, CloserTo(current.price));
      SortPermutes(c, CloserTo(current.price));
      var r := Take(s, limit);
      assert multiset(r) <= multiset(c);
      assert forall x | x in r :: x in multiset(r) && x in multiset(c);
      r
  }

  /** Rooms at the same distance from the room's price keep their catalogue
      order: those kept are the first ones of that distance among the
      candidates. */
  lemma RelatedRoomsStable(rooms: seq<Room>, roomId: int, limit: nat, z: Room)
    requires RoomById(rooms, roomId).Some?
    ensures var p := RoomById(rooms, roomId).value.price;
            var tied := Filter(RelatedCandidates(rooms, roomId), TiedWith(CloserTo(p), z));
            var kept := Filter(RelatedRooms(rooms, roomId, limit), TiedWith(CloserTo(p), z));
            |kept| <= |tied| && kept == tied[..|kept|]
  {
    var p := RoomById(rooms, roomId).value.price;
    var c := RelatedCandidates(rooms, roomId);
    var s := InsertionSort(c, CloserTo(p));
    var r := RelatedRooms(rooms, roomId, limit);
    CloserToStrictWeakOrder(p);
    SortStable(c, CloserTo(p), z);
    assert r == Take(s, limit);
    FilterAppend(r, s[|r|..], TiedWith(CloserTo(p), z));
  }

  /** The related rooms are in non-decreasing distance from the room's
      price, as many as the limit allows, and no candidate left out is
      strictly closer than one kept. */
  lemma {:induction false} RelatedRoomsClosest(rooms: seq<Room>, roomId: int, limit: nat)
    requires RoomById(rooms, roomId).Some?
    ensures var p := RoomById(rooms, roomId).value.price;
            var r := RelatedRooms(rooms, roomId, limit);
            && (forall i, j :: 0 <= i < j < |r| ==> PriceDistance(r[i], p) <= PriceDistance(r[j], p))
            && |r| == (if limit < |RelatedCandidates(rooms, roomId)| then limit
                       else |RelatedCandidates(rooms, roomId)|)
            && (forall x, i | x in RelatedCandidates(rooms, roomId) && 0 <= i < |r| &&
                              PriceDistance(x, p) < PriceDistance(r[i], p) :: x in r)
  {
    var p := RoomById(rooms, roomId).value.price;
    var c := RelatedCandidates(rooms, roomId);
    var s := InsertionSort(c, CloserTo(p));
    var r := RelatedRooms(rooms, roomId, limit);
    CloserToStrictWeakOrder(p);
    SortedResult(c, CloserTo(p));
    SortPermutes(c, CloserTo(p));
    assert r == Take(s, limit);
    forall x, i | x in c && 0 <= i < |r| && PriceDistance(x, p) < PriceDistance(r[i], p)
      ensures x in r
    {
      assert x in multiset(s);
      var k :| 0 <= k < |s| && s[k] == x;
      assert k < |r|;
    }
  }

  // ---------------------------------------------------------------------
  // getUniqueAmenities

  /** `rooms.flatMap(room => room.amenities)`. */
  function AllAmenities(rooms: seq<Room>): (r: seq<string>)
    ensures forall a :: a in r <==> exists room | room in rooms :: a in room.amenities
  {
    if rooms == [] then []
    else
      var rest := AllAmenities(rooms[1..]);
      assert forall room | room in rooms[1..] :: room in rooms;
      assert forall room | room in rooms :: room == rooms[0] || room in rooms[1..];
      rooms[0].amenities + rest
  }

  /** `[...new Set(s)]`: first occurrences, in order. */
  function Dedup<T(==,!new)>(s: seq<T>): (r: seq<T>)
    ensures NoDuplicates(r)
    ensures forall x :: x in r <==> x in s
    decreases |s|
  {
    if s == [] then []
    else
      var rest := Dedup(Filter(s[1..], y => y != s[0]));
      assert forall x :: x in s <==> x == s[0] || x in s[1..];
      var r := [s[0]] + rest;
      assert forall j :: 0 < j < |r| ==> r[j] in rest;
      r
  }

  /** The default `sort()` comparator, modelled as lexicographic order of
      the characters' code points. */
  function CharCodeBefore(): (string, string) -> bool
  {
    (a: string, b: string) => LexLess(a, b)
  }

  lemma CharCodeStrictWeakOrder()
    ensures StrictWeakOrder(CharCodeBefore())
  {
    forall a: string ensures !LexLess(a, a) {
      LexLessTotal(a, a);
    }
    forall a: string, b: string, c: string | LexLess(a, b) && LexLess(b, c)
      ensures LexLess(a, c)
    {
      LexLessTransitive(a, b, c);
    }
    forall a: string, b: string, c: string | !LexLess(a, b) && !LexLess(b, c)
      ensures !LexLess(a, c)
    {
      LexLessTotal(a, b);
      LexLessTotal(b, c);
      LexLessTotal(a, c);
      if LexLess(a, c) {
        if b != a && b != c {
          LexLessTransitive(c, b, a);
        }
      }
    }
  }

  /** `getUniqueAmenities`. */
  function UniqueAmenities(rooms: seq<Room>): (r: seq<string>)
  {
    InsertionSort(Dedup(AllAmenities(rooms)), CharCodeBefore())
  }

  /** The unique amenities are strictly ascending (hence free of
      duplicates) and are exactly the amenities of some room. */
  lemma UniqueAmenitiesSpec(rooms: seq<Room>)
    ensures var r := UniqueAmenities(rooms);
            && (forall i, j :: 0 <= i < j < |r| ==> LexLess(r[i], r[j]))
            && NoDuplicates(r)
            && (forall a :: a in r <==> exists room | room in rooms :: a in room.amenities)
  {
    var d := Dedup(AllAmenities(rooms));
    var r := UniqueAmenities(rooms);
    CharCodeStrictWeakOrder();
    SortedResult(d, CharCodeBefore());
    SortPermutes(d, CharCodeBefore());
    PermutationNoDuplicates(d, r);
    assert forall a :: a in r <==> a in multiset(r);
    assert forall a :: a in d <==> a in multiset(d);
    forall i, j | 0 <= i < j < |r| ensures LexLess(r[i], r[j]) {
      assert !CharCodeBefore()(r[j], r[i]);
      LexLessTotal(r[i], r[j]);
    }
  }

  // ---------------------------------------------------------------------
  // getRoomStats

  /** The prices (`rooms.map((room: Room) => room.price)`). */
  function Prices(rooms: seq<Room>): (r: seq<int>)
    ensures |r| == |rooms| && forall i :: 0 <= i < |rooms| ==> r[i] == rooms[i].price
  {
    seq(|rooms|, i requires 0 <= i < |rooms| => rooms[i].price)
  }

  function Capacities(rooms: seq<Room>): (r: seq<int>)
    ensures |r| == |rooms| && forall i :: 0 <= i < |rooms| ==> r[i] == rooms[i].capacity
  {
    seq(|rooms|, i requires 0 <= i < |rooms| => rooms[i].capacity)
  }

  /** `reduce((sum, x) => sum + x, 0)`. */
  function Sum(s: seq<int>): int
  {
    if s == [] then 0 else s[0] + Sum(s[1..])
  }

  /** `Math.max(...s)` of a non-empty list. */
  function Max(s: seq<int>): (m: int)
    requires s != []
    ensures m in s && forall x | x in s :: x <= m
  {
    if |s| == 1 then s[0]
    else
      var m := Max(s[1..]);
      assert forall x | x in s :: x == s[0] || x in s[1..];
      if s[0] > m then s[0] else m
  }

  /** `Math.min(...s)` of a non-empty list. */
  function Min(s: seq<int>): (m: int)
    requires s != []
    ensures m in s && forall x | x in s :: m <= x
  {
    if |s| == 1 then s[0]
    else
      var m := Min(s[1..]);
      assert forall x | x in s :: x == s[0] || x in s[1..];
      if s[0] < m then s[0] else m
  }

  /** `Math.round(sum / n)` for a positive count: the integer `m` with
      m - 1/2 <= sum / n < m + 1/2 (halves round up). */
  function RoundedMean(sum: int, n: nat): (m: int)
    requires n > 0
    ensures 2 * n * m - n <= 2 * sum < 2 * n * m + n
  {
    var x := 2 * sum + n;
    var d := 2 * n;
    assert d * (x / d) <= x < d * (x / d) + d;
    assert 2 * n * (x / d) == d * (x / d);
    x / d
  }

  /** The statistics; `None` stands for the `NaN`, `-Infinity` and
      `Infinity` that an empty room list produces. */
  datatype RoomStats = RoomStats(
    total: nat,
    available: nat,
    featured: nat,
    averagePrice: Option<int>,
    maxCapacity: Option<int>,
    minPrice: Option<int>,
    maxPrice: Option<int>)

  /** `getRoomStats`. */
  function Stats(rooms: seq<Room>): (r: RoomStats)
    ensures r.total == |rooms|
    ensures r.available == |AvailableRooms(rooms)| && r.featured == |FeaturedRooms(rooms)|
    ensures r.available <= r.total && r.featured <= r.total
    ensures rooms == [] <==> r.averagePrice.None?
    ensures rooms != [] ==> r.averagePrice == Some(RoundedMean(Sum(Prices(rooms)), |rooms|))
    ensures rooms == [] ==> r.maxCapacity.None? && r.minPrice.None? && r.maxPrice.None?
    ensures rooms != [] ==>
              && r.minPrice.Some? && r.maxPrice.Some? && r.maxCapacity.Some?
              && r.minPrice.value <= r.averagePrice.value <= r.maxPrice.value
              && (forall room | room in rooms :: r.minPrice.value <= room.price <= r.maxPrice.value)
              && (exists room | room in rooms :: room.price == r.minPrice.value)
              && (exists room | room in rooms :: room.price == r.maxPrice.value)
              && (forall room | room in rooms :: room.capacity <= r.maxCapacity.value)
              && (exists room | room in rooms :: room.capacity == r.maxCapacity.value)
  {
    var available := |AvailableRooms(rooms)|;
    var featured := |FeaturedRooms(rooms)|;
    if rooms == [] then
      RoomStats(0, available, featured, None, None, None, None)
    else
      var prices := Prices(rooms);
      var lo := Min(prices);
      var hi := Max(prices);
      SumBounds(prices, lo, hi);
      MeanBounds(Sum(prices), |rooms|, lo, hi);
      assert forall room | room in rooms :: room.price in prices && room.capacity in Capacities(rooms);
      RoomStats(|rooms|, available, featured,
                Some(RoundedMean(Sum(prices), |rooms|)),
                Some(Max(Capacities(rooms))), Some(lo), Some(hi))
  }

  lemma {:induction false} SumBounds(s: seq<int>, lo: int, hi: int)
    requires forall x | x in s :: lo <= x <= hi
    ensures |s| * lo <= Sum(s) <= |s| * hi
  {
    if s != [] {
      assert forall x | x in s[1..] :: x in s;
      assert s[0] in s && Sum(s) == s[0] + Sum(s[1..]);
      SumBounds(s[1..], lo, hi);
      assert |s| * lo == lo + (|s| - 1) * lo;
      assert |s| * hi == hi + (|s| - 1) * hi;
    }
  }

  lemma MulMonotone(d: int, a: int, b: int)
    requires d >= 0 && a <= b
    ensures d * a <= d * b
  {
    assert d * b - d * a == d * (b - a);
  }

  lemma MeanBounds(sum: int, n: nat, lo: int, hi: int)
    requires n > 0 && n * lo <= sum <= n * hi
    ensures lo <= RoundedMean(sum, n) <= hi
  {
    var x := 2 * sum + n;
    var d := 2 * n;
    var q := x / d;
    assert d * q <= x < d * q + d;
    assert d * lo <= x by {
      assert d * lo == 2 * (n * lo);
    }
    assert x < d * (hi + 1) by {
      assert d * (hi + 1) == 2 * (n * hi) + 2 * n;
    }
    if q + 1 <= lo {
      MulMonotone(d, q + 1, lo);
    }
    if hi + 1 <= q {
      MulMonotone(d, hi + 1, q);
    }
  }
}
