# Golf-course map: query and normalisation model

A Dafny model of the data path of the golf-course map component
(`src/app/Map.tsx`): the Overpass QL query text it sends for a fixed
North Carolina bounding box, the mapping of the Overpass answer's
`elements` into the records the map renders, and the single state cell
`golfCourses`, which only a fully successful exchange overwrites.

Modules:

- `Wrappers` (`wrappers.dfy`): `Option` for fields that may be `undefined`,
  `Result` for a step that may throw.
- `OverpassQuery` (`query.dfy`): `BOUNDS.join(",")` as `Join`, the template
  literal as `QueryText`, the constant `BOUNDS` as `NorthCarolina` and the
  constant `overpassQuery` as `NorthCarolinaQuery` (whose text the lemma
  `NorthCarolinaQueryText` states in full), and a reader `ParseQuery` that recovers the bounding
  box from a query. The round trip `ParseQuery(QueryText(b)) == Some(b)` shows
  that the four coordinates appear once each, in the fixed order, between the
  filter's parentheses.
- `Courses` (`courses.dfy`): raw elements, course records, the name default,
  the element-wise mapping `Normalise` and the whole `try` block `Fetch`, with
  the error each failure throws.
- `GolfMap` (`golf_map.dfy`): the class `MapState` holding `golfCourses`, its
  constructor (the empty initial list) and `FetchGolfCourses`, which applies
  one response.

Behaviour of the code a reader might not expect:

- An element without a `tags` object does not get the default name. Reading
  `node.tags.name` throws, so the whole mapping fails. Nothing is stored and
  the previous list stays.
- An element without `lat` or `lon` is not skipped. The missing value is
  copied into the record, which keeps its position in the list.
- A missing name and an empty name both give `"Unnamed Golf Course"`. That
  is the truthiness of `||`.

Coordinates are only copied. They are modelled as optional `real` values and
no arithmetic is done on them. The query text takes each coordinate's decimal
rendering as a given string. Those strings are `"33.8"`, `"-83.6"`, `"36.6"`
and `"-75.3"`, the JavaScript renderings of the source's constants.

## Model

| member | source | states |
|---|---|---|
| `OverpassQuery.Join` | src/app/Map.tsx:17 | `Array.prototype.join`: the text starts with the first part and is as long as the parts together plus one separator for each of the gaps between neighbours |
| `OverpassQuery.JoinFour` | src/app/Map.tsx:12-17 | joining the four bounds gives min_lat, min_lon, max_lat, max_lon in that order with exactly one separator between neighbours |
| `OverpassQuery.QueryText` | src/app/Map.tsx:12-19 | the template literal: the query is a newline, `[out:json];`, a newline, the golf-course node filter whose parentheses hold the four comma-separated bounds in fixed order, `);`, a newline, `out body;` and a final newline |
| `OverpassQuery.NorthCarolinaQueryText` | src/app/Map.tsx:12-19 | the text sent for the North Carolina box has `33.8,-83.6,36.6,-75.3` inside the filter |
| `OverpassQuery.SplitJoin` | src/app/Map.tsx:17 | cutting a joined list at the separator gives back the parts, provided no part contains the separator; the join loses nothing |
| `OverpassQuery.QueryLines` | src/app/Map.tsx:15-19 | the query has exactly five lines: empty, the output-format directive, the filter over the box, the `out body;` directive, empty |
| `OverpassQuery.ParseQueryText` | src/app/Map.tsx:12-19 | the bounding box can be read back from its query: the four coordinates appear in order between the filter's parentheses and nowhere else varies |
| `OverpassQuery.QueryTextInjective` | src/app/Map.tsx:15-19 | the query is a function of the box and different boxes give different query texts |
| `OverpassQuery.NorthCarolinaRoundTrip` | src/app/Map.tsx:12-19 | the query actually sent reads back as the North Carolina box |
| `Courses.DisplayName` | src/app/Map.tsx:45 | the name is `tags.name` when it is present and non-empty, else `"Unnamed Golf Course"`; it is never empty |
| `Courses.ToCourse` | src/app/Map.tsx:44-47 | a tagged element gives a record with the same `id`, `lat` as `lat`, `lng` as `lon`, and the display name of its tags |
| `Courses.Normalise` | src/app/Map.tsx:43-48 | the mapping succeeds exactly when every element has `tags`; then it gives one record per element, in the same order, each converted from the element at its position |
| `Courses.Fetch` | src/app/Map.tsx:36-48 | a list is produced exactly when the response is ok, its body parses, `elements` is present and every element has tags; otherwise it names the failure: network, status not ok, malformed body, missing `elements`, missing `tags` |
| `Courses.NormaliseAppend` | src/app/Map.tsx:43-48 | the mapping is element-wise: the mapping of two runs of elements joined is the two mappings joined, and it fails exactly when one of them fails |
| `Courses.ConvertsAllUnique` | src/app/Map.tsx:43-48 | the element-wise description determines the record list completely |
| `Courses.UntaggedElementSpoilsAll` | src/app/Map.tsx:43-48 | one element without `tags` anywhere in the answer makes the whole mapping fail; no partial list and no default name |
| `Courses.NameFromTags` | src/app/Map.tsx:45 | an empty `name` tag gives the placeholder and a non-empty one is used as it is |
| `Courses.MissingCoordinatesKept` | src/app/Map.tsx:43-48 | an element without `lat` is not skipped: the list keeps its length and that record's `lat` is missing too |
| `Courses.EmptyAnswer` | src/app/Map.tsx:43-50 | an answer with an empty `elements` array is a success with no records, not an error |
| `Courses.NamedElementExample` | src/app/Map.tsx:43-48 | the element `{id: 1, lat: 35.0, lon: -79.0, tags: {name: "Pinehurst"}}` becomes `{id: 1, name: "Pinehurst", lat: 35.0, lng: -79.0}` |
| `GolfMap.NextCourses` | src/app/Map.tsx:36-53 | after an exchange the list is unchanged on any failure, and on success it is exactly the element-wise conversion of the answer |
| `GolfMap.MapState.constructor` | src/app/Map.tsx:22 | `golfCourses` starts as the empty list |
| `GolfMap.MapState.FetchGolfCourses` | src/app/Map.tsx:26-54 | the state is overwritten with the converted answer only when the whole exchange succeeds; any thrown error leaves it as it was |
| `GolfMap.SuccessReplacesWholesale` | src/app/Map.tsx:50 | after a success the list does not depend on what was held before: it is replaced, not merged, and has one record per element |
| `GolfMap.LastSuccessWins` | src/app/Map.tsx:50-53 | over two exchanges a later success hides the earlier outcome, and a later failure keeps what the earlier one left |

## Left out

- The `fetch` POST itself, its URL, headers and the `encodeURIComponent` of the body (src/app/Map.tsx:9, 28-34). These are network I/O and a browser encoding call. Their outcome is the `Response` value passed in: `RequestRejected` when the request fails.
- `response.json()` (src/app/Map.tsx:40). This is the browser's JSON parser. The model starts from an already parsed body, with `BodyRejected` for a body that does not parse. A parsed body whose `elements` is not an array, or whose elements are not objects, is not modelled. Elements have the fields of `RawElement`, and `id` is an integer when present.
- `useEffect` and the asynchronous scheduling (src/app/Map.tsx:24-57). This is React's lifecycle. The model applies one response in one sequential call.
- `console.error` (src/app/Map.tsx:52). It is a log with no effect on state. `Fetch` returns the error that would be logged.
- The Leaflet icon, `MapContainer`, `TileLayer`, `Marker` and `Popup` (src/app/Map.tsx:59-82). These are rendering.
- The number-to-string rendering inside `BOUNDS.join` and the numeric meaning of coordinates (src/app/Map.tsx:12, 17, 46-47). These are floating point. Coordinates are copied values and their query text is given as strings.
- The ordering of the bounding box (min below max). The code does not check it, and the model, working on text, does not either.
- OverpassQuery.ParseQueryText and OverpassQuery.QueryTextInjective hold for coordinate texts without commas or newlines. Every decimal rendering of a number is such a text.
