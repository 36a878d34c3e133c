/** Turning the Overpass answer into the map's golf-course records: the
    `data.elements.map(...)` step and the ways the exchange can fail before
    the records reach the map. */
module Courses {
  import opened Wrappers

  /** A node of the Overpass answer.  Every field may be missing (`undefined`);
      coordinates are only ever copied, so their numeric meaning is irrelevant. */
  datatype RawElement = RawElement(
    id: Option<int>,
    lat: Option<real>,
    lon: Option<real>,
    tags: Option<map<string, string>>)

  /** The record the map renders one marker for. */
  datatype Course = Course(id: Option<int>, name: string, lat: Option<real>, lng: Option<real>)

  const DefaultName := "Unnamed Golf Course"

  /** What the exchange with the Overpass API produced, up to the parsed body. */
  datatype Response =
    | RequestRejected                              // `fetch` itself rejects
    | NotOk                                        // `response.ok` is false
    | BodyRejected                                 // `response.json()` rejects
    | Body(elements: Option<seq<RawElement>>)      // the parsed body; `elements` may be missing

  /** The error that ends up in the `catch` block. */
  datatype FetchError =
    | NetworkError       // the request never produced a response
    | StatusNotOk        // "Failed to fetch data from Overpass API"
    | MalformedBody      // the body is not JSON
    | ElementsMissing    // `data.elements` is undefined, so `.map` throws
    | TagsMissing        // some `node.tags` is undefined, so `.name` throws

  /** `tags.name || "Unnamed Golf Course"`: the name when it is truthy, that
      is present and non-empty, else the placeholder. */
  function DisplayName(tags: map<string, string>): (r: string)
    ensures r != ""
    ensures "name" in tags && tags["name"] != "" ==> r == tags["name"]
    ensures !("name" in tags && tags["name"] != "") ==> r == DefaultName
  {
    if "name" in tags && tags["name"] != "" then tags["name"] else DefaultName
  }

  /** Every element carries a `tags` object. */
  predicate AllTagged(elements: seq<RawElement>)
  {
    forall i :: 0 <= i < |elements| ==> elements[i].tags.Some?
  }

  /** `c` is the record the object literal builds from `e`: `id`, `lat` and
      `lon` copied, the name looked up in the tags. */
  predicate Converts(e: RawElement, c: Course)
  {
    && e.tags.Some?
    && c.id == e.id
    && c.name == DisplayName(e.tags.value)
    && c.lat == e.lat
    && c.lng == e.lon
  }

  /** `courses` is what mapping the object literal over `elements` builds:
      one record per element, position by position. */
  predicate ConvertsAll(elements: seq<RawElement>, courses: seq<Course>)
  {
    && |courses| == |elements|
    && forall i :: 0 <= i < |elements| ==> Converts(elements[i], courses[i])
  }

  /** The record one tagged element becomes. */
  function ToCourse(e: RawElement): (c: Course)
    requires e.tags.Some?
    ensures Converts(e, c)
  {
    Course(e.id, DisplayName(e.tags.value), e.lat, e.lon)
  }

  /** `elements.map(...)`: `None` when some element has no `tags` (the
      callback throws and no list is produced), otherwise one record per
      element, in order, with `id`, `lat` and `lon` copied as they are,
      missing ones included. */
  function Normalise(elements: seq<RawElement>): (r: Option<seq<Course>>)
    ensures r.Some? <==> AllTagged(elements)
    ensures r.Some? ==> ConvertsAll(elements, r.value)
  {
    if |elements| == 0 then Some([])
    else if elements[0].tags.None? then None
    else
      match Normalise(elements[1..])
      case None => None
      case Some(rest) => Some([ToCourse(elements[0])] + rest)
  }

  /** The whole `try` block after the request: the checks and the mapping, and
      which error escapes to the `catch` when one does. */
  function Fetch(response: Response): (r: Result<seq<Course>, FetchError>)
    ensures r.Success? <==> response.Body? && response.elements.Some? && AllTagged(response.elements.value)
    ensures r.Success? ==> ConvertsAll(response.elements.value, r.value)
    ensures response.RequestRejected? ==> r == Failure(NetworkError)
    ensures response.NotOk? ==> r == Failure(StatusNotOk)
    ensures response.BodyRejected? ==> r == Failure(MalformedBody)
    ensures response.Body? && response.elements.None? ==> r == Failure(ElementsMissing)
    ensures response.Body? && response.elements.Some? && !AllTagged(response.elements.value)
            ==> r == Failure(TagsMissing)
  {
    match response
    case RequestRejected => Failure(NetworkError)
    case NotOk => Failure(StatusNotOk)
    case BodyRejected => Failure(MalformedBody)
    case Body(None) => Failure(ElementsMissing)
    case Body(Some(elements)) =>
      match Normalise(elements)
      case None => Failure(TagsMissing)
      case Some(courses) => Success(courses)
  }

  // ---------------------------------------------------------------------------
  // Lemmas

  /** Two partial lists joined: present only when both are. */
  function Concat(x: Option<seq<Course>>, y: Option<seq<Course>>): Option<seq<Course>>
  {
    if x.Some? && y.Some? then Some(x.value + y.value) else None
  }

  /** Mapping is element-wise: normalising two runs of elements one after the
      other gives the two lists of records one after the other, and fails
      exactly when one of the runs does. */
  lemma {:induction false} NormaliseAppend(a: seq<RawElement>, b: seq<RawElement>)
    ensures Normalise(a + b) == Concat(Normalise(a), Normalise(b))
  {
    if |a| == 0 {
      assert a + b == b;
      if Normalise(b).Some? {
        assert [] + Normalise(b).value == Normalise(b).value;
      }
    } else {
      var ab := a + b;
      assert ab[0] == a[0];
      assert ab[1..] == a[1..] + b;
      NormaliseAppend(a[1..], b);
      if a[0].tags.Some? && Normalise(a[1..]).Some? && Normalise(b).Some? {
        var head, tail, right := ToCourse(a[0]), Normalise(a[1..]).value, Normalise(b).value;
        assert [head] + (tail + right) == ([head] + tail) + right;
      }
    }
  }

  /** The element-wise description pins the records down completely, so it
      is a full specification of the mapping. */
  lemma ConvertsAllUnique(elements: seq<RawElement>, c1: seq<Course>, c2: seq<Course>)
    requires ConvertsAll(elements, c1) && ConvertsAll(elements, c2)
    ensures c1 == c2
  {
  }

  /** One untagged element anywhere discards the whole answer, whatever the
      other elements are: no partial list. */
  lemma UntaggedElementSpoilsAll(before: seq<RawElement>, e: RawElement, after: seq<RawElement>)
    requires e.tags.None?
    ensures Fetch(Body(Some(before + [e] + after))) == Failure(TagsMissing)
  {
    var all := before + [e] + after;
    assert all[|before|] == e;
  }

  /** A name comes from the tags only when it is a non-empty string. */
  lemma NameFromTags(tags: map<string, string>, name: string)
    ensures DisplayName(tags["name" := name]) == (if name == "" then DefaultName else name)
  {
  }

  /** An element whose coordinates are missing is not skipped: it yields a
      record whose coordinates are missing too, in its own position. */
  lemma MissingCoordinatesKept(elements: seq<RawElement>, i: nat)
    requires AllTagged(elements)
    requires i < |elements| && elements[i].lat.None?
    ensures Fetch(Body(Some(elements))).Success?
    ensures |Fetch(Body(Some(elements))).value| == |elements|
    ensures Fetch(Body(Some(elements))).value[i].lat.None?
  {
  }

  /** An answer with no elements is a success with no records. */
  lemma EmptyAnswer()
    ensures Fetch(Body(Some([]))) == Success([])
  {
  }

  /** A named element keeps its identifier, name and position. */
  lemma NamedElementExample()
    ensures Normalise([RawElement(Some(1), Some(35.0), Some(-79.0), Some(map["name" := "Pinehurst"]))])
      == Some([Course(Some(1), "Pinehurst", Some(35.0), Some(-79.0))])
  {
    var tags := map["name" := "Pinehurst"];
    assert DisplayName(tags) == "Pinehurst";
    var e := RawElement(Some(1), Some(35.0), Some(-79.0), Some(tags));
    assert [e][1..] == [];
    assert Normalise([e][1..]) == Some([]);
    assert ToCourse(e) == Course(Some(1), "Pinehurst", Some(35.0), Some(-79.0));
    assert Normalise([e]) == Some([ToCourse(e)] + []);
    assert [ToCourse(e)] + [] == [Course(Some(1), "Pinehurst", Some(35.0), Some(-79.0))];
  }
}
