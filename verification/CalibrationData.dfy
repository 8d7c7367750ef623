/**
  Storing calibration data as JSON values and reading them back (lib/calibration/calibrationdata.cpp,
  lib/calibration/linegrid.cpp, lib/calibration/serialization.cpp).
 */
module CalibrationDatas {
  import opened Common
  import opened LineGrids

  datatype Json =
    | JNull
    | JInt(i: int)
    | JReal(r: real)
    | JString(s: string)
    | JArray(items: seq<Json>)
    | JObject(fields: map<string, Json>)

  /** Member lookup; a missing member is null. */
  function Member(j: Json, key: string): Option<Json> {
    match j
    case JNull => Some(JNull)
    case JObject(fields) => Some(if key in fields then fields[key] else JNull)
    case _ => None
  }

  function AsReal(j: Json): Option<real> {
    match j
    case JNull => Some(0.0)
    case JInt(i) => Some(i as real)
    case JReal(r) => Some(r)
    case _ => None
  }

  function AsInt(j: Json): Option<int> {
    match j
    case JNull => Some(0)
    case JInt(i) => Some(i)
    case JReal(r) => Some(Truncated(r))
    case _ => None
  }

  /** The nearest integer towards zero. */
  function Truncated(r: real): (i: int)
    ensures if r >= 0.0 then i as real <= r < i as real + 1.0 else i as real - 1.0 < r <= i as real
    ensures r > -1.0 && r < 1.0 ==> i == 0
  {
    if r >= 0.0 then r.Floor else -(-r).Floor
  }

  function AsString(j: Json): Option<string> {
    match j
    case JNull => Some("")
    case JString(s) => Some(s)
    case _ => None
  }

  /** The elements of an array; null has none. */
  function Items(j: Json): Option<seq<Json>> {
    match j
    case JNull => Some([])
    case JArray(items) => Some(items)
    case JObject(fields) => if fields == map[] then Some([]) else None
    case _ => Some([])
  }

  /** Element lookup; an element past the end is null. */
  function Element(j: Json, i: nat): Option<Json> {
    match j
    case JNull => Some(JNull)
    case JArray(items) => Some(if i < |items| then items[i] else JNull)
    case _ => None
  }

  // ---------------------------------------------------------------- matrices

  datatype Matrix = Matrix(rows: nat, cols: nat, at: seq<seq<real>>)

  ghost predicate Shaped(m: Matrix) {
    |m.at| == m.rows && forall i :: 0 <= i < m.rows ==> |m.at[i]| == m.cols
  }

  function RowJson(row: seq<real>): (r: seq<Json>)
    ensures |r| == |row| && forall j :: 0 <= j < |row| ==> r[j] == JReal(row[j])
  {
    seq(|row|, j requires 0 <= j < |row| => JReal(row[j]))
  }

  function MatrixJson(m: Matrix): Json
    requires Shaped(m)
  {
    JArray(seq(m.rows, i requires 0 <= i < m.rows => JArray(RowJson(m.at[i]))))
  }

  method SerializeMatrix(m: Matrix) returns (root: Json)
    requires Shaped(m)
    ensures root == MatrixJson(m)
  {
    var rows: seq<Json> := [];
    for i := 0 to m.rows
      invariant |rows| == i && forall k :: 0 <= k < i ==> rows[k] == JArray(RowJson(m.at[k]))
    {
      var row: seq<Json> := [];
      for j := 0 to m.cols
        invariant |row| == j && forall k :: 0 <= k < j ==> row[k] == JReal(m.at[i][k])
      {
        row := row + [JReal(m.at[i][j])];
      }
      assert row == RowJson(m.at[i]);
      rows := rows + [JArray(row)];
    }
    root := JArray(rows);
    assert rows == MatrixJson(m).items;
  }

  /** The first `j` elements of a row; elements past the end read as null, that is as zero. */
  function ParseRow(value: Json, j: nat): (r: Option<seq<real>>)
    ensures r.Some? ==> |r.value| == j
  {
    if j == 0 then Some([])
    else
      var front :- ParseRow(value, j - 1);
      var item :- Element(value, j - 1);
      var x :- AsReal(item);
      Some(front + [x])
  }

  function ParseRows(items: seq<Json>, cols: nat, i: nat): (r: Option<seq<seq<real>>>)
    requires i <= |items|
    ensures r.Some? ==> |r.value| == i && forall k :: 0 <= k < i ==> |r.value[k]| == cols
  {
    if i == 0 then Some([])
    else
      var front :- ParseRows(items, cols, i - 1);
      var row :- ParseRow(items[i - 1], cols);
      Some(front + [row])
  }

  /** The size comes from the array and its first row. */
  function ParseMatrix(value: Json): (m: Option<Matrix>)
    ensures m.Some? ==> Shaped(m.value)
  {
    if !value.JArray? || value.items == [] || !value.items[0].JArray? then None
    else
      var rows, cols := |value.items|, |value.items[0].items|;
      var at :- ParseRows(value.items, cols, rows);
      Some(Matrix(rows, cols, at))
  }

  method DeserializeMatrix(value: Json) returns (m: Option<Matrix>)
    ensures m == ParseMatrix(value)
  {
    if !value.JArray? || value.items == [] || !value.items[0].JArray? {
      return None;
    }
    var rows, cols := |value.items|, |value.items[0].items|;
    var at: seq<seq<real>> := [];
    for i := 0 to rows
      invariant ParseRows(value.items, cols, i) == Some(at)
    {
      var row := DeserializeRow(value.items[i], cols);
      if row.None? {
        RowFails(value.items, cols, i + 1, rows);
        return None;
      }
      at := at + [row.value];
    }
    m := Some(Matrix(rows, cols, at));
  }

  method DeserializeRow(value: Json, cols: nat) returns (row: Option<seq<real>>)
    ensures row == ParseRow(value, cols)
  {
    var r: seq<real> := [];
    for j := 0 to cols
      invariant ParseRow(value, j) == Some(r)
    {
      var item := Element(value, j);
      var x := if item.Some? then AsReal(item.value) else None;
      if x.None? {
        ElementFails(value, j + 1, cols);
        return None;
      }
      r := r + [x.value];
    }
    row := Some(r);
  }

  lemma {:induction false} ElementFails(value: Json, j: nat, cols: nat)
    requires j <= cols && ParseRow(value, j).None?
    ensures ParseRow(value, cols).None?
  {
    if j < cols {
      ElementFails(value, j, cols - 1);
    }
  }

  lemma {:induction false} RowFails(items: seq<Json>, cols: nat, i: nat, n: nat)
    requires i <= n <= |items| && ParseRows(items, cols, i).None?
    ensures ParseRows(items, cols, n).None?
  {
    hide ParseRow;
    if i < n {
      RowFails(items, cols, i, n - 1);
    }
  }

  lemma {:induction false} RowRoundTrip(row: seq<real>, j: nat)
    requires j <= |row|
    ensures ParseRow(JArray(RowJson(row)), j) == Some(row[..j])
  {
    if j > 0 {
      RowRoundTrip(row, j - 1);
      assert row[..j] == row[..j - 1] + [row[j - 1]];
    }
  }

  lemma {:induction false} RowsRoundTrip(m: Matrix, i: nat)
    requires Shaped(m) && i <= m.rows
    ensures ParseRows(MatrixJson(m).items, m.cols, i) == Some(m.at[..i])
  {
    hide ParseRow, RowJson;
    if i > 0 {
      RowsRoundTrip(m, i - 1);
      RowRoundTrip(m.at[i - 1], m.cols);
      assert m.at[i - 1][..m.cols] == m.at[i - 1];
      assert m.at[..i] == m.at[..i - 1] + [m.at[i - 1]];
    }
  }

  /** A matrix can be read back exactly when it has a row. */
  lemma MatrixRoundTripIff(m: Matrix)
    requires Shaped(m)
    ensures ParseMatrix(MatrixJson(m)) == Some(m) <==> m.rows > 0
    ensures m.rows == 0 ==> ParseMatrix(MatrixJson(m)) == None
  {
    hide ParseRows;
    if m.rows > 0 {
      RowsRoundTrip(m, m.rows);
      assert m.at[..m.rows] == m.at;
    }
  }

  // ---------------------------------------------------------------- line grids

  /** The number of the enumerator. */
  function SubgridInt(s: SubGrid): (i: int)
    ensures s == SUBGRID_A ==> i == 0
    ensures s == SUBGRID_B ==> i == 1
  {
    if s.SUBGRID_A? then 0 else 1
  }

  function LineJson(line: Line): Json {
    JObject(map["subgrid" := JInt(SubgridInt(line.subgrid)), "position" := JReal(line.position)])
  }

  function ParseLine(value: Json): Option<Line> {
    var s :- Member(value, "subgrid");
    var i :- AsInt(s);
    var p :- Member(value, "position");
    var x :- AsReal(p);
    if i == 0 then Some(Line(SUBGRID_A, x)) else if i == 1 then Some(Line(SUBGRID_B, x)) else None
  }

  lemma LineRoundTrip(line: Line)
    ensures ParseLine(LineJson(line)) == Some(line)
  {
  }

  function LinesJson(lines: seq<Line>): Json {
    JArray(seq(|lines|, i requires 0 <= i < |lines| => LineJson(lines[i])))
  }

  function ParseLines(items: seq<Json>): Option<seq<Line>> {
    if items == [] then Some([])
    else
      var n := |items| - 1;
      var front :- ParseLines(items[..n]);
      var last :- ParseLine(items[n]);
      Some(front + [last])
  }

  lemma {:induction false} LinesRoundTrip(lines: seq<Line>)
    ensures ParseLines(LinesJson(lines).items) == Some(lines)
  {
    hide LineJson, ParseLine;
    if lines != [] {
      var n := |lines| - 1;
      LinesRoundTrip(lines[..n]);
      LineRoundTrip(lines[n]);
      assert LinesJson(lines).items[..n] == LinesJson(lines[..n]).items;
      assert lines == lines[..n] + [lines[n]];
    }
  }

  // ---------------------------------------------------------------- calibration data

  /** The lens entries are sorted by zoom and focus step. */
  datatype LensConfig = LensConfig(zoom: int, focus: int)

  datatype LensParams = LensParams(cameraMatrix: Matrix, distCoeffs: Matrix)

  datatype LensEntry = LensEntry(config: LensConfig, params: LensParams)

  datatype ArrayParams = ArrayParams(grid: LineGrid, translation: (real, real), rotation: real)

  predicate Less(a: LensConfig, b: LensConfig) {
    a.zoom < b.zoom || (a.zoom == b.zoom && a.focus < b.focus)
  }

  ghost predicate SortedLenses(l: seq<LensEntry>) {
    forall i, j :: 0 <= i < j < |l| ==> !Less(l[j].config, l[i].config)
  }

  ghost predicate StrictlySorted(l: seq<LensEntry>) {
    forall i, j :: 0 <= i < j < |l| ==> Less(l[i].config, l[j].config)
  }

  /** A strictly sorted list is its only sorted rearrangement, so sorting it again changes nothing. */
  lemma {:induction false} SortingIsIdempotent(l: seq<LensEntry>, r: seq<LensEntry>)
    requires StrictlySorted(l) && SortedLenses(r) && multiset(r) == multiset(l)
    ensures r == l
  {
    hide Less;
    assert |multiset(r)| == |multiset(l)|;
    if l != [] {
      var n := |l| - 1;
      SameLast(l, r);
      WithoutLast(l);
      WithoutLast(r);
      SortingIsIdempotent(l[..n], r[..n]);
    }
  }

  lemma WithoutLast(l: seq<LensEntry>)
    requires l != []
    ensures l == l[..|l| - 1] + [l[|l| - 1]]
    ensures multiset(l[..|l| - 1]) == multiset(l) - multiset{l[|l| - 1]}
  {
    var n := |l| - 1;
    assert l == l[..n] + [l[n]];
    assert multiset(l) == multiset(l[..n]) + multiset{l[n]};
  }

  lemma SameLast(l: seq<LensEntry>, r: seq<LensEntry>)
    requires StrictlySorted(l) && SortedLenses(r) && multiset(r) == multiset(l) && l != [] && |l| == |r|
    ensures l[|l| - 1] == r[|l| - 1]
  {
    var n := |l| - 1;
    assert l[n] in multiset(r) && r[n] in multiset(l);
    var i :| 0 <= i < |r| && r[i] == l[n];
    var j :| 0 <= j < |l| && l[j] == r[n];
    assert i < n ==> !Less(r[n].config, r[i].config);
    assert j < n ==> Less(l[j].config, l[n].config);
  }

  datatype Data = Data(serial: string, lensArray: ArrayParams, lens: seq<LensEntry>)

  /** Matrices without rows cannot be read back. */
  ghost predicate GoodMatrix(m: Matrix) {
    Shaped(m) && m.rows > 0
  }

  ghost predicate GoodLens(e: LensEntry) {
    GoodMatrix(e.params.cameraMatrix) && GoodMatrix(e.params.distCoeffs)
  }

  ghost predicate GoodData(d: Data) {
    forall i :: 0 <= i < |d.lens| ==> GoodLens(d.lens[i])
  }

  function LensJson(e: LensEntry): Json
    requires GoodLens(e)
  {
    JObject(map[
      "configuration" := JObject(map["zoomStep" := JInt(e.config.zoom), "focusStep" := JInt(e.config.focus)]),
      "parameters" := JObject(map["cameraMatrix" := MatrixJson(e.params.cameraMatrix),
                                  "distCoeffs" := MatrixJson(e.params.distCoeffs)])])
  }

  function ArrayJson(a: ArrayParams): Json {
    JObject(map[
      "translation" := JArray([JReal(a.translation.0), JReal(a.translation.1)]),
      "rotation" := JReal(a.rotation),
      "grid" := JObject(map["horizontal" := LinesJson(a.grid.horizontal), "vertical" := LinesJson(a.grid.vertical)])])
  }

  function LensesJson(lens: seq<LensEntry>): (r: seq<Json>)
    requires forall i :: 0 <= i < |lens| ==> GoodLens(lens[i])
    ensures |r| == |lens| && forall i :: 0 <= i < |lens| ==> r[i] == LensJson(lens[i])
  {
    seq(|lens|, i requires 0 <= i < |lens| => LensJson(lens[i]))
  }

  function DataJson(d: Data): Json
    requires GoodData(d)
  {
    JObject(map["serial" := JString(d.serial), "array" := ArrayJson(d.lensArray), "lens" := JArray(LensesJson(d.lens))])
  }

  function ParseConfig(value: Json): Option<LensConfig> {
    var z :- Member(value, "zoomStep");
    var zoom :- AsReal(z);
    var f :- Member(value, "focusStep");
    var focus :- AsReal(f);
    Some(LensConfig(Truncated(zoom), Truncated(focus)))
  }

  function ParseParams(value: Json): Option<LensParams> {
    var c :- Member(value, "cameraMatrix");
    var camera :- ParseMatrix(c);
    var d :- Member(value, "distCoeffs");
    var dist :- ParseMatrix(d);
    Some(LensParams(camera, dist))
  }

  function ParseLens(value: Json): Option<LensEntry> {
    var c :- Member(value, "configuration");
    var config :- ParseConfig(c);
    var p :- Member(value, "parameters");
    var params :- ParseParams(p);
    Some(LensEntry(config, params))
  }

  lemma ConfigRoundTrip(c: LensConfig)
    ensures ParseConfig(JObject(map["zoomStep" := JInt(c.zoom), "focusStep" := JInt(c.focus)])) == Some(c)
  {
    hide Truncated;
    TruncatedInt(c.zoom);
    TruncatedInt(c.focus);
  }

  lemma TruncatedInt(i: int)
    ensures Truncated(i as real) == i
  {
  }

  lemma ParamsRoundTrip(p: LensParams)
    requires GoodMatrix(p.cameraMatrix) && GoodMatrix(p.distCoeffs)
    ensures ParseParams(JObject(map["cameraMatrix" := MatrixJson(p.cameraMatrix), "distCoeffs" := MatrixJson(p.distCoeffs)])) ==
            Some(p)
  {
    hide MatrixJson, ParseMatrix;
    MatrixRoundTripIff(p.cameraMatrix);
    MatrixRoundTripIff(p.distCoeffs);
  }

  lemma LensRoundTrip(e: LensEntry)
    requires GoodLens(e)
    ensures ParseLens(LensJson(e)) == Some(e)
  {
    hide MatrixJson, ParseMatrix, ParseConfig, ParseParams, GoodMatrix;
    ConfigRoundTrip(e.config);
    ParamsRoundTrip(e.params);
  }

  /** The array parameters read into `a`: lines are appended, the rest is replaced. */
  function ParseArray(value: Json, a: ArrayParams): Option<ArrayParams> {
    var t :- Member(value, "translation");
    var t0 :- Element(t, 0);
    var t1 :- Element(t, 1);
    var x :- AsReal(t0);
    var y :- AsReal(t1);
    var o :- Member(value, "rotation");
    var rotation :- AsReal(o);
    var g :- Member(value, "grid");
    var h :- Member(g, "horizontal");
    var v :- Member(g, "vertical");
    var horizontal :- LinesOf(h);
    var vertical :- LinesOf(v);
    Some(ArrayParams(LineGrid(a.grid.horizontal + horizontal, a.grid.vertical + vertical), (x, y), rotation))
  }

  function LinesOf(value: Json): Option<seq<Line>> {
    var items :- Items(value);
    ParseLines(items)
  }

  lemma LinesOfJson(lines: seq<Line>)
    ensures LinesOf(LinesJson(lines)) == Some(lines)
  {
    LinesRoundTrip(lines);
  }

  lemma ArrayRoundTrip(src: ArrayParams, a: ArrayParams)
    ensures ParseArray(ArrayJson(src), a) ==
            Some(ArrayParams(LineGrid(a.grid.horizontal + src.grid.horizontal, a.grid.vertical + src.grid.vertical),
                             src.translation, src.rotation))
  {
    hide LinesJson, LinesOf;
    LinesOfJson(src.grid.horizontal);
    LinesOfJson(src.grid.vertical);
  }

  function ParseLenses(items: seq<Json>): Option<seq<LensEntry>> {
    if items == [] then Some([])
    else
      var n := |items| - 1;
      var front :- ParseLenses(items[..n]);
      var last :- ParseLens(items[n]);
      Some(front + [last])
  }

  lemma {:induction false} LensesRoundTrip(lens: seq<LensEntry>)
    requires forall i :: 0 <= i < |lens| ==> GoodLens(lens[i])
    ensures ParseLenses(LensesJson(lens)) == Some(lens)
  {
    hide ParseLens, LensJson, GoodLens;
    if lens != [] {
      var n := |lens| - 1;
      LensesRoundTrip(lens[..n]);
      LensRoundTrip(lens[n]);
      assert LensesJson(lens)[..n] == LensesJson(lens[..n]);
      assert lens == lens[..n] + [lens[n]];
    }
  }

  lemma {:induction false} LensFails(items: seq<Json>, i: nat)
    requires i <= |items| && ParseLenses(items[..i]).None?
    ensures ParseLenses(items).None?
  {
    hide ParseLens;
    if i < |items| {
      var n := |items| - 1;
      assert items[..n][..i] == items[..i];
      LensFails(items[..n], i);
    } else {
      assert items[..i] == items;
    }
  }

  /** What an object holds after reading a value into it. */
  function ParseInto(value: Json, d: Data): Option<Data> {
    var s :- Member(value, "serial");
    var serial :- AsString(s);
    var a :- Member(value, "array");
    var params :- ParseArray(a, d.lensArray);
    var l :- Member(value, "lens");
    var items :- Items(l);
    var lens :- ParseLenses(items);
    Some(Data(serial, params, d.lens + lens))
  }

  /** The members of the stored document. */
  lemma DataFormat(d: Data)
    requires GoodData(d)
    ensures var root := DataJson(d);
            && root.JObject? && root.fields.Keys == {"serial", "array", "lens"}
            && root.fields["serial"] == JString(d.serial)
            && root.fields["array"].JObject? && root.fields["array"].fields.Keys == {"translation", "rotation", "grid"}
            && root.fields["array"].fields["rotation"] == JReal(d.lensArray.rotation)
            && root.fields["array"].fields["grid"].JObject?
            && root.fields["array"].fields["grid"].fields.Keys == {"horizontal", "vertical"}
            && root.fields["lens"].JArray? && |root.fields["lens"].items| == |d.lens|
    ensures forall i :: 0 <= i < |d.lens| ==>
              var e := DataJson(d).fields["lens"].items[i];
              && e.JObject? && e.fields.Keys == {"configuration", "parameters"}
              && e.fields["configuration"] ==
                 JObject(map["zoomStep" := JInt(d.lens[i].config.zoom), "focusStep" := JInt(d.lens[i].config.focus)])
              && e.fields["parameters"].JObject? && e.fields["parameters"].fields.Keys == {"cameraMatrix", "distCoeffs"}
  {
    hide LinesJson, MatrixJson;
  }

  /** Reading the serialized form into any object replaces its values and appends to its lists. */
  lemma ReadInto(d: Data, into: Data)
    requires GoodData(d)
    ensures var grid := LineGrid(into.lensArray.grid.horizontal + d.lensArray.grid.horizontal,
                                 into.lensArray.grid.vertical + d.lensArray.grid.vertical);
            ParseInto(DataJson(d), into) ==
            Some(Data(d.serial, ArrayParams(grid, d.lensArray.translation, d.lensArray.rotation), into.lens + d.lens))
  {
    hide ArrayJson, ParseArray, LensesJson, ParseLenses;
    ArrayRoundTrip(d.lensArray, into.lensArray);
    LensesRoundTrip(d.lens);
  }

  /** Reading the serialized form into an empty object restores every field and every entry in order. */
  lemma DataRoundTrip(d: Data)
    requires GoodData(d)
    ensures ParseInto(DataJson(d), NEW_DATA) == Some(d)
  {
    hide ParseInto, DataJson;
    ReadInto(d, NEW_DATA);
    assert [] + d.lens == d.lens && [] + d.lensArray.grid.horizontal == d.lensArray.grid.horizontal
        && [] + d.lensArray.grid.vertical == d.lensArray.grid.vertical;
  }

  const NEW_DATA := Data("", ArrayParams(LineGrid([], []), (0.0, 0.0), 0.0), [])

  class CalibrationData {
    var serial: string
    var lensArray: ArrayParams
    var lens: seq<LensEntry>

    function View(): Data
      reads this
    {
      Data(serial, lensArray, lens)
    }

    constructor ()
      ensures View() == NEW_DATA
    {
      serial, lensArray, lens := "", ArrayParams(LineGrid([], []), (0.0, 0.0), 0.0), [];
    }

    /** The constructor from parts sorts the lens entries. */
    constructor Create(serial: string, lensArray: ArrayParams, lens: seq<LensEntry>)
      ensures this.serial == serial && this.lensArray == lensArray
      ensures SortedLenses(this.lens) && multiset(this.lens) == multiset(lens)
      ensures forall i, j :: 0 <= i < j < |this.lens| ==>
                var a, b := this.lens[i].config, this.lens[j].config;
                a.zoom < b.zoom || (a.zoom == b.zoom && a.focus <= b.focus)
    {
      this.serial, this.lensArray := serial, lensArray;
      var sorted := SortLenses(lens);
      this.lens := sorted;
    }

    /** Copying sorts again, which leaves sorted entries with distinct configurations alone. */
    constructor Copy(other: CalibrationData)
      ensures this.serial == other.serial && this.lensArray == other.lensArray
      ensures SortedLenses(this.lens) && multiset(this.lens) == multiset(other.lens)
      ensures StrictlySorted(other.lens) ==> this.lens == other.lens
    {
      serial, lensArray := other.serial, other.lensArray;
      var sorted := SortLenses(other.lens);
      lens := sorted;
      if StrictlySorted(other.lens) {
        SortingIsIdempotent(other.lens, sorted);
      }
    }

    method Serialize() returns (root: Json)
      requires GoodData(View())
      ensures root == DataJson(View())
    {
      hide LensJson, ArrayJson, GoodLens;
      var items: seq<Json> := [];
      for i := 0 to |lens|
        invariant |items| == i && forall k :: 0 <= k < i ==> items[k] == LensesJson(lens)[k]
      {
        var item := SerializeLens(lens[i]);
        items := items + [item];
      }
      assert items == LensesJson(lens);
      root := JObject(map["serial" := JString(serial), "array" := ArrayJson(lensArray), "lens" := JArray(items)]);
    }

    /** Read a value; line lists and lens entries are appended to what the object holds. */
    method Deserialize(value: Json) returns (ok: bool)
      modifies this
      ensures ok == ParseInto(value, old(View())).Some?
      ensures ok ==> View() == ParseInto(value, old(View())).value
    {
      hide ParseArray, ParseLens;
      ok := false;
      var s, a, l := Member(value, "serial"), Member(value, "array"), Member(value, "lens");
      if s.None? || a.None? || l.None? {
        return;
      }
      var name, params, items := AsString(s.value), ParseArray(a.value, lensArray), Items(l.value);
      if name.None? || params.None? || items.None? {
        return;
      }
      serial, lensArray := name.value, params.value;
      ghost var lens0, done := lens, [];
      for i := 0 to |items.value|
        invariant serial == name.value && lensArray == params.value
        invariant ParseLenses(items.value[..i]) == Some(done) && lens == lens0 + done
      {
        var e := ParseLens(items.value[i]);
        assert items.value[..i + 1][..i] == items.value[..i];
        if e.None? {
          LensFails(items.value, i + 1);
          return;
        }
        lens := lens + [e.value];
        done := done + [e.value];
      }
      assert items.value[..|items.value|] == items.value;
      ok := true;
    }
  }

  method SerializeLens(e: LensEntry) returns (j: Json)
    requires GoodLens(e)
    ensures j == LensJson(e)
  {
    hide MatrixJson;
    var c := SerializeMatrix(e.params.cameraMatrix);
    var d := SerializeMatrix(e.params.distCoeffs);
    j := JObject(map[
      "configuration" := JObject(map["zoomStep" := JInt(e.config.zoom), "focusStep" := JInt(e.config.focus)]),
      "parameters" := JObject(map["cameraMatrix" := c, "distCoeffs" := d])]);
  }

  function InsertLens(l: seq<LensEntry>, e: LensEntry): seq<LensEntry> {
    var n := |l|;
    if n == 0 || !Less(e.config, l[n - 1].config) then l + [e] else InsertLens(l[..n - 1], e) + [l[n - 1]]
  }

  lemma {:induction false} InsertedInOrder(l: seq<LensEntry>, e: LensEntry)
    requires SortedLenses(l)
    ensures SortedLenses(InsertLens(l, e)) && multiset(InsertLens(l, e)) == multiset(l) + multiset{e}
  {
    hide Less;
    var n := |l|;
    if n > 0 && Less(e.config, l[n - 1].config) {
      var front := InsertLens(l[..n - 1], e);
      InsertedInOrder(l[..n - 1], e);
      InsertedAbove(l, front, e);
    } else {
      AppendedInOrder(l, e);
    }
  }

  lemma {:induction false} LessIsOrder(a: LensConfig, b: LensConfig, c: LensConfig)
    ensures Less(a, b) ==> !Less(b, a)
    ensures !Less(b, a) && !Less(c, b) ==> !Less(c, a)
  {
  }

  lemma {:induction false} AppendedInOrder(l: seq<LensEntry>, e: LensEntry)
    requires SortedLenses(l) && (l == [] || !Less(e.config, l[|l| - 1].config))
    ensures SortedLenses(l + [e])
  {
    hide Less;
    forall i | 0 <= i < |l|
      ensures !Less(e.config, l[i].config)
    {
      LessIsOrder(l[i].config, l[|l| - 1].config, e.config);
    }
  }

  /** Putting the last entry back after one that belongs before it. */
  lemma {:induction false} InsertedAbove(l: seq<LensEntry>, front: seq<LensEntry>, e: LensEntry)
    requires l != [] && SortedLenses(l) && Less(e.config, l[|l| - 1].config)
    requires SortedLenses(front) && multiset(front) == multiset(l[..|l| - 1]) + multiset{e}
    ensures SortedLenses(front + [l[|l| - 1]]) && multiset(front + [l[|l| - 1]]) == multiset(l) + multiset{e}
  {
    hide Less;
    var last := l[|l| - 1];
    WithoutLast(l);
    forall i | 0 <= i < |front|
      ensures !Less(last.config, front[i].config)
    {
      assert front[i] in multiset(front);
      assert front[i] == e || front[i] in l[..|l| - 1];
      LessIsOrder(e.config, last.config, last.config);
    }
  }

  /** Stands for `std::sort`. */
  method SortLenses(l: seq<LensEntry>) returns (r: seq<LensEntry>)
    ensures SortedLenses(r) && multiset(r) == multiset(l)
  {
    r := [];
    for i := 0 to |l|
      invariant SortedLenses(r) && multiset(r) == multiset(l[..i])
    {
      assert l[..i + 1] == l[..i] + [l[i]];
      InsertedInOrder(r, l[i]);
      r := InsertLens(r, l[i]);
    }
    assert l[..|l|] == l;
  }

  /** Writing an object and reading it into a new one gives the same object. */
  method RoundTrip(data: CalibrationData) returns (copy: CalibrationData)
    requires GoodData(data.View())
    ensures fresh(copy) && copy.View() == data.View()
  {
    hide DataJson, GoodLens, ParseInto;
    DataRoundTrip(data.View());
    var root := data.Serialize();
    copy := new CalibrationData();
    var ok := copy.Deserialize(root);
  }
}
