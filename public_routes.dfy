/** The public room endpoints of routes/publicRoutes.js: building the filter
    query of `GET /public-rooms` from the optional query-string parameters,
    and the 404 rule of `GET /public-rooms/:id`. `parseInt`, the regular
    expression and the evaluation of the query by the database are library
    behaviour and stay uninterpreted. */
module PublicRoutes {
  import opened Common

  type RoomId = string

  /** A stored room, as far as `GET /public-rooms/:id` reads it; the other
      fields are passed through unread. */
  datatype Room = Room(isAvailable: bool)

  /** The filter parameters of the query string; each may be missing. */
  datatype FilterParams = FilterParams(
    minPrice: Option<string>,
    maxPrice: Option<string>,
    location: Option<string>,
    amenities: Option<string>,
    category: Option<string>)

  /** JavaScript truthiness of a query-string value: present and non-empty. */
  predicate Given(p: Option<string>)
  {
    p.Some? && p.value != ""
  }

  /** A bound written as `parseInt(raw)`; its number is left to `parseInt`. */
  datatype Bound = ParseIntOf(raw: string)

  /** `{ $gte, $lte }`, either of which may be absent. */
  datatype PriceRange = PriceRange(gte: Option<Bound>, lte: Option<Bound>)

  /** `{ $regex: pattern, $options: options }`. */
  datatype Pattern = Regex(pattern: string, options: string)

  /** The query object: `isAvailable` plus one optional constraint per field.
      `amenitiesAll` is the `$all` list. */
  datatype RoomQuery = RoomQuery(
    isAvailable: bool,
    price: Option<PriceRange>,
    locationName: Option<Pattern>,
    amenitiesAll: Option<seq<string>>,
    category: Option<string>)

  // ---------------------------------------------------------------------------
  // `String.prototype.split` on one character, and its inverse

  /** `s.split(sep)` for a one-character separator: the maximal separator-free
      pieces, in order, including empty pieces around adjacent or outer
      separators. */
  function Split(s: string, sep: char): (r: seq<string>)
    ensures |r| >= 1
    ensures forall i :: 0 <= i < |r| ==> sep !in r[i]
  {
    if s == [] then [""]
    else
      var rest := Split(s[1..], sep);
      if s[0] == sep then [""] + rest else [[s[0]] + rest[0]] + rest[1..]
  }

  /** `parts.join(sep)`. */
  function JoinWith(parts: seq<string>, sep: char): string
    requires |parts| >= 1
  {
    if |parts| == 1 then parts[0] else parts[0] + [sep] + JoinWith(parts[1..], sep)
  }

  /** Prepending to the first piece prepends to the joined string. */
  lemma JoinWithPrepend(x: string, parts: seq<string>, sep: char)
    requires |parts| >= 1
    ensures JoinWith([x + parts[0]] + parts[1..], sep) == x + JoinWith(parts, sep)
  {
    var lhs := [x + parts[0]] + parts[1..];
    assert lhs[1..] == parts[1..];
  }

  /** Joining the pieces with the separator gives back the string. */
  lemma {:induction false} SplitJoin(s: string, sep: char)
    ensures JoinWith(Split(s, sep), sep) == s
  {
    if s != [] {
      var rest := Split(s[1..], sep);
      SplitJoin(s[1..], sep);
      if s[0] == sep {
        assert ([""] + rest)[1..] == rest;
        assert s == [sep] + s[1..];
      } else {
        JoinWithPrepend([s[0]], rest, sep);
        assert s == [s[0]] + s[1..];
      }
    }
  }

  /** A separator-free prefix lands in the first piece. */
  lemma {:induction false} SplitPrepend(x: string, t: string, sep: char)
    requires sep !in x
    ensures Split(x + t, sep) == [x + Split(t, sep)[0]] + Split(t, sep)[1..]
  {
    var rest := Split(t, sep);
    if x == [] {
      assert x + t == t && x + rest[0] == rest[0];
      assert rest == [rest[0]] + rest[1..];
    } else {
      SplitPrepend(x[1..], t, sep);
      assert (x + t)[1..] == x[1..] + t;
      var r := Split(x[1..] + t, sep);
      assert r[0] == x[1..] + rest[0] && r[1..] == rest[1..];
      assert (x + t)[0] == x[0] != sep;
      assert Split(x + t, sep) == [[x[0]] + r[0]] + r[1..];
      assert [x[0]] + (x[1..] + rest[0]) == x + rest[0];
    }
  }

  /** Splitting a join of separator-free pieces gives back the pieces, so
      the amenity list and the amenities string determine each other. */
  lemma {:induction false} JoinSplit(parts: seq<string>, sep: char)
    requires |parts| >= 1
    requires forall i :: 0 <= i < |parts| ==> sep !in parts[i]
    ensures Split(JoinWith(parts, sep), sep) == parts
  {
    if |parts| == 1 {
      SplitPrepend(parts[0], "", sep);
      assert parts[0] + "" == parts[0];
    } else {
      var tail := JoinWith(parts[1..], sep);
      JoinSplit(parts[1..], sep);
      assert ([sep] + tail)[1..] == tail;
      assert Split([sep] + tail, sep) == [""] + parts[1..];
      SplitPrepend(parts[0], [sep] + tail, sep);
      assert JoinWith(parts, sep) == parts[0] + ([sep] + tail);
      assert (Split([sep] + tail, sep))[0] == "" && (Split([sep] + tail, sep))[1..] == parts[1..];
      assert parts[0] + "" == parts[0];
      assert parts == [parts[0]] + parts[1..];
    }
  }

  // ---------------------------------------------------------------------------
  // The filter query

  /** The query `GET /public-rooms` builds, as one value. */
  function QueryFor(p: FilterParams): (q: RoomQuery)
    ensures q.isAvailable
    ensures q.price.Some? <==> Given(p.minPrice) || Given(p.maxPrice)
    ensures q.amenitiesAll.Some? ==> |q.amenitiesAll.value| >= 1
  {
    RoomQuery(
      true,
      if Given(p.minPrice) || Given(p.maxPrice) then
        Some(PriceRange(
          if Given(p.minPrice) then Some(ParseIntOf(p.minPrice.value)) else None,
          if Given(p.maxPrice) then Some(ParseIntOf(p.maxPrice.value)) else None))
      else None,
      if Given(p.location) then Some(Regex(p.location.value, "i")) else None,
      if Given(p.amenities) then Some(Split(p.amenities.value, ',')) else None,
      if Given(p.category) then Some(p.category.value) else None)
  }

  /** The handler's step-by-step construction of the query object. */
  method BuildQuery(p: FilterParams) returns (q: RoomQuery)
    ensures q == QueryFor(p)
  {
    q := RoomQuery(true, None, None, None, None);
    if Given(p.minPrice) || Given(p.maxPrice) {
      q := q.(price := Some(PriceRange(None, None)));
      if Given(p.minPrice) {
        q := q.(price := Some(q.price.value.(gte := Some(ParseIntOf(p.minPrice.value)))));
      }
      if Given(p.maxPrice) {
        q := q.(price := Some(q.price.value.(lte := Some(ParseIntOf(p.maxPrice.value)))));
      }
    }
    if Given(p.location) {
      q := q.(locationName := Some(Regex(p.location.value, "i")));
    }
    if Given(p.amenities) {
      var amenityArray := Split(p.amenities.value, ',');
      q := q.(amenitiesAll := Some(amenityArray));
    }
    if Given(p.category) {
      q := q.(category := Some(p.category.value));
    }
  }

  /** What the built query says about each parameter: availability always;
      a price constraint only for a non-empty bound, each bound from its own
      parameter; the amenity pieces, comma-free and joining back to the
      parameter; location and category only when given; and with no filter
      at all, the bare `{isAvailable: true}`. */
  lemma QueryForShape(p: FilterParams)
    ensures QueryFor(p).isAvailable
    ensures QueryFor(p).price.Some? <==> Given(p.minPrice) || Given(p.maxPrice)
    ensures QueryFor(p).price.Some? ==>
      && (QueryFor(p).price.value.gte.Some? <==> Given(p.minPrice))
      && (QueryFor(p).price.value.lte.Some? <==> Given(p.maxPrice))
      && (Given(p.minPrice) ==> QueryFor(p).price.value.gte.value.raw == p.minPrice.value)
      && (Given(p.maxPrice) ==> QueryFor(p).price.value.lte.value.raw == p.maxPrice.value)
    ensures QueryFor(p).amenitiesAll.Some? <==> Given(p.amenities)
    ensures Given(p.amenities) ==>
      && JoinWith(QueryFor(p).amenitiesAll.value, ',') == p.amenities.value
      && (forall i :: 0 <= i < |QueryFor(p).amenitiesAll.value| ==> ',' !in QueryFor(p).amenitiesAll.value[i])
    ensures QueryFor(p).category.Some? <==> Given(p.category)
    ensures Given(p.category) ==> QueryFor(p).category.value == p.category.value
    ensures QueryFor(p).locationName.Some? <==> Given(p.location)
    ensures Given(p.location) ==> QueryFor(p).locationName.value == Regex(p.location.value, "i")
    ensures !Given(p.minPrice) && !Given(p.maxPrice) && !Given(p.location)
            && !Given(p.amenities) && !Given(p.category)
        ==> QueryFor(p) == RoomQuery(true, None, None, None, None)
  {
    if Given(p.amenities) {
      SplitJoin(p.amenities.value, ',');
    }
  }

  // ---------------------------------------------------------------------------
  // `GET /public-rooms/:id`

  datatype RoomResponse = Found(room: Room) | NotFound404

  /** A missing room and an unavailable room both answer 404; any other room
      is returned as stored. */
  function ShowRoom(rooms: map<RoomId, Room>, id: RoomId): (r: RoomResponse)
    ensures r.NotFound404? <==> id !in rooms || !rooms[id].isAvailable
    ensures r.Found? ==> id in rooms && r.room == rooms[id] && r.room.isAvailable
  {
    if id !in rooms || !rooms[id].isAvailable then NotFound404 else Found(rooms[id])
  }
}
