/** The Overpass QL text the map sends to the Overpass API: a fixed template
    around the bounding box, whose four coordinates are joined with commas the
    way JavaScript's `Array.prototype.join(",")` does it.  The decimal
    rendering of each coordinate is taken as given text. */
module OverpassQuery {
  import opened Wrappers

  /** The bounding box, in the order the query needs it. */
  datatype BoundingBox = BoundingBox(minLat: string, minLon: string, maxLat: string, maxLon: string)
  {
    /** The array `[min_lat, min_lon, max_lat, max_lon]` that is joined. */
    function AsList(): seq<string>
    {
      [minLat, minLon, maxLat, maxLon]
    }
  }

  /** North Carolina, as the renderings of the source's numeric constants. */
  const NorthCarolina := BoundingBox("33.8", "-83.6", "36.6", "-75.3")

  const FormatDirective := "[out:json];"
  const FilterOpen := "node[\"leisure\"=\"golf_course\"]("
  const FilterClose := ");"
  const OutputDirective := "out body;"

  /** The summed lengths of `parts`. */
  function TotalLength(parts: seq<string>): nat
  {
    if |parts| == 0 then 0 else |parts[0]| + TotalLength(parts[1..])
  }

  /** JavaScript's `parts.join(sep)`: the parts with `sep` between neighbours.
      Exactly one separator goes into each of the `|parts| - 1` gaps and
      nothing else is added; the first part starts the text. */
  function Join(parts: seq<string>, sep: string): (r: string)
    ensures |parts| > 0 ==> |r| == TotalLength(parts) + (|parts| - 1) * |sep|
    ensures |parts| > 0 ==> parts[0] <= r
  {
    if |parts| == 0 then ""
    else if |parts| == 1 then parts[0]
    else parts[0] + sep + Join(parts[1..], sep)
  }

  /** Cuts `s` at every occurrence of `sep`; the inverse of `Join` for parts
      that do not contain `sep`. */
  function Split(s: string, sep: char): (r: seq<string>)
    ensures |r| > 0
  {
    if |s| == 0 then [""]
    else
      var rest := Split(s[1..], sep);
      if s[0] == sep then [""] + rest
      else [[s[0]] + rest[0]] + rest[1..]
  }

  /** The node filter line: the golf-course tag filter applied to the box. */
  function FilterLine(box: BoundingBox): string
  {
    FilterOpen + Join(box.AsList(), ",") + FilterClose
  }

  /** The template literal: one directive per line, with a newline before the
      first line and after the last.  The coordinates sit inside the filter's
      parentheses, in the fixed order min_lat, min_lon, max_lat, max_lon,
      separated by single commas. */
  function QueryText(box: BoundingBox): (q: string)
    ensures q
      == "\n" + FormatDirective + "\n"
         + FilterOpen + (box.minLat + "," + box.minLon + "," + box.maxLat + "," + box.maxLon) + FilterClose
         + "\n" + OutputDirective + "\n"
  {
    JoinFour(box, ",");
    "\n" + FormatDirective + "\n" + FilterLine(box) + "\n" + OutputDirective + "\n"
  }

  /** The query the map sends. */
  const NorthCarolinaQuery := QueryText(NorthCarolina)

  /** A coordinate rendering that cannot be confused with the query's own
      punctuation; every decimal rendering of a number is one. */
  predicate PlainCoordinate(s: string)
  {
    ',' !in s && '\n' !in s
  }

  predicate PlainBox(box: BoundingBox)
  {
    PlainCoordinate(box.minLat) && PlainCoordinate(box.minLon)
    && PlainCoordinate(box.maxLat) && PlainCoordinate(box.maxLon)
  }

  /** Reads the bounding box back out of a query text, if it has the
      template's shape. */
  function ParseQuery(q: string): Option<BoundingBox>
  {
    var lines := Split(q, '\n');
    if |lines| == 5 && lines[0] == "" && lines[1] == FormatDirective
       && lines[3] == OutputDirective && lines[4] == ""
       && |lines[2]| >= |FilterOpen| + |FilterClose|
       && lines[2][..|FilterOpen|] == FilterOpen
       && lines[2][|lines[2]| - |FilterClose|..] == FilterClose
    then
      var coords := Split(lines[2][|FilterOpen|..|lines[2]| - |FilterClose|], ',');
      if |coords| == 4 then Some(BoundingBox(coords[0], coords[1], coords[2], coords[3]))
      else None
    else None
  }

  // ---------------------------------------------------------------------------
  // Lemmas

  /** Joining four parts puts exactly one separator between neighbours, in order. */
  lemma JoinFour(box: BoundingBox, sep: string)
    ensures Join(box.AsList(), sep) == box.minLat + sep + box.minLon + sep + box.maxLat + sep + box.maxLon
  {
    var l := box.AsList();
    assert l[1..][1..][1..] == [box.maxLon];
    assert l[1..][1..] == [box.maxLat, box.maxLon];
    assert l[1..] == [box.minLon, box.maxLat, box.maxLon];
    calc {
      Join(l, sep);
      box.minLat + sep + Join(l[1..], sep);
      box.minLat + sep + (box.minLon + sep + Join(l[1..][1..], sep));
      box.minLat + sep + (box.minLon + sep + (box.maxLat + sep + box.maxLon));
      box.minLat + sep + box.minLon + sep + box.maxLat + sep + box.maxLon;
    }
  }

  /** The text actually sent for North Carolina. */
  lemma NorthCarolinaQueryText()
    ensures NorthCarolinaQuery
      == "\n" + FormatDirective + "\n" + FilterOpen + "33.8,-83.6,36.6,-75.3" + FilterClose
         + "\n" + OutputDirective + "\n"
  {
    var coords := NorthCarolina.minLat + "," + NorthCarolina.minLon + "," + NorthCarolina.maxLat + "," + NorthCarolina.maxLon;
    assert coords == "33.8,-83.6,36.6,-75.3";
  }

  /** A character in neither the parts nor the separator is not in the join. */
  lemma {:induction false} JoinAvoids(parts: seq<string>, sep: string, c: char)
    requires c !in sep
    requires forall i :: 0 <= i < |parts| ==> c !in parts[i]
    ensures c !in Join(parts, sep)
  {
    if |parts| > 1 {
      JoinAvoids(parts[1..], sep, c);
    }
  }

  /** Text without the separator is one piece. */
  lemma {:induction false} SplitWhole(s: string, sep: char)
    requires sep !in s
    ensures Split(s, sep) == [s]
  {
    if |s| > 0 {
      SplitWhole(s[1..], sep);
      assert [s[0]] + s[1..] == s;
    }
  }

  /** Splitting at the first separator peels off the text before it. */
  lemma {:induction false} SplitAt(a: string, sep: char, b: string)
    requires sep !in a
    ensures Split(a + [sep] + b, sep) == [a] + Split(b, sep)
  {
    var s := a + [sep] + b;
    if |a| == 0 {
      assert s == [sep] + b;
      assert s[1..] == b;
    } else {
      assert s[1..] == a[1..] + [sep] + b;
      SplitAt(a[1..], sep, b);
      assert [a[0]] + a[1..] == a;
    }
  }

  /** Splitting undoes joining, as long as no part holds the separator. */
  lemma {:induction false} SplitJoin(parts: seq<string>, sep: char)
    requires |parts| > 0
    requires forall i :: 0 <= i < |parts| ==> sep !in parts[i]
    ensures Split(Join(parts, [sep]), sep) == parts
  {
    if |parts| == 1 {
      SplitWhole(parts[0], sep);
    } else {
      SplitJoin(parts[1..], sep);
      SplitAt(parts[0], sep, Join(parts[1..], [sep]));
      assert [parts[0]] + parts[1..] == parts;
    }
  }

  /** Three lines, each preceded by a newline, with a final newline. */
  lemma SplitThreeLines(a: string, b: string, c: string)
    requires '\n' !in a && '\n' !in b && '\n' !in c
    ensures Split("\n" + a + "\n" + b + "\n" + c + "\n", '\n') == ["", a, b, c, ""]
  {
    var nl := ['\n'];
    var t4 := c + nl + "";
    var t3 := b + nl + t4;
    var t2 := a + nl + t3;
    var t1 := "" + nl + t2;
    assert "\n" + a + "\n" + b + "\n" + c + "\n" == t1;
    SplitAt(c, '\n', "");
    SplitAt(b, '\n', t4);
    SplitAt(a, '\n', t3);
    SplitAt("", '\n', t2);
  }

  /** The query is five newline-separated lines: an empty one, the format
      directive, the filter over the box, the output directive, an empty one. */
  lemma QueryLines(box: BoundingBox)
    requires PlainBox(box)
    ensures Split(QueryText(box), '\n') == ["", FormatDirective, FilterLine(box), OutputDirective, ""]
  {
    JoinAvoids(box.AsList(), ",", '\n');
    assert '\n' !in FilterLine(box);
    assert '\n' !in FormatDirective;
    assert '\n' !in OutputDirective;
    SplitThreeLines(FormatDirective, FilterLine(box), OutputDirective);
  }

  /** The bounding box can be read back from the query: the query holds
      exactly the four coordinates, in order, and nothing else varies. */
  lemma ParseQueryText(box: BoundingBox)
    requires PlainBox(box)
    ensures ParseQuery(QueryText(box)) == Some(box)
  {
    QueryLines(box);
    var line := FilterLine(box);
    var j := Join(box.AsList(), ",");
    assert line[..|FilterOpen|] == FilterOpen;
    assert line[|line| - |FilterClose|..] == FilterClose;
    assert line[|FilterOpen|..|line| - |FilterClose|] == j;
    SplitJoin(box.AsList(), ',');
  }

  /** Different boxes give different queries: the query text is a faithful
      encoding of its bounding box. */
  lemma QueryTextInjective(a: BoundingBox, b: BoundingBox)
    requires PlainBox(a) && PlainBox(b)
    requires QueryText(a) == QueryText(b)
    ensures a == b
  {
    ParseQueryText(a);
    ParseQueryText(b);
  }

  /** The constant box renders plainly, so its query can be read back. */
  lemma NorthCarolinaRoundTrip()
    ensures ParseQuery(NorthCarolinaQuery) == Some(NorthCarolina)
  {
    assert PlainBox(NorthCarolina);
    ParseQueryText(NorthCarolina);
  }
}
