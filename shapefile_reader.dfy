/**
 * The paired shape/attribute reader of a shoreline shapefile. A shapefile
 * is modelled as its decoded content: the geometry records of the `.shp`
 * file (each vertex with both its Z and its M slot), the header and the rows
 * of the `.dbf` record table. The two underlying readers are that content
 * plus one cursor each.
 */
module Shapefile {
  import opened Common

  /** A vertex as stored in a PolyLineZ/PolyLineM record: x, y and both optional slots. */
  datatype RawVertex = RawVertex(x: real, y: real, z: Measure, m: Measure)

  /** A multi-line geometry record: record number and the parts' vertices. */
  datatype RawRecord = RawRecord(number: int, parts: seq<seq<RawVertex>>)

  /** A vertex as the reader hands it over: x, y and the measure from the chosen slot. */
  datatype MVertex = MVertex(x: real, y: real, m: Measure)

  /** A decoded geometry record: record number and its line strings. */
  datatype ShapeRecord = ShapeRecord(number: int, lines: seq<seq<MVertex>>)

  /** One column of a record-table header. */
  datatype Field = Field(name: string, cls: JClass)

  /** One record-table row: a value per header field. */
  type Row = seq<Value>

  /** What one step of the reader yields: geometry record N with attribute row N. */
  datatype ShapeAndAttributes = ShapeAndAttributes(record: ShapeRecord, row: Row)

  /** The files of one shapefile as their readers see them. */
  datatype ShapefileContent = ShapefileContent(shp: seq<RawRecord>, header: seq<Field>, dbf: seq<Row>)

  /** The two measure placements: the M slot (ARCM) or the Z slot (ARCZ). */
  datatype ShapeType = ArcM | ArcZ

  const ShpSuffix: string := ".shp"

  /** The path a base name opens: `.shp` is appended unless the name already ends with it, in any case. */
  function NormaliseShpName(name: string): (r: string)
    ensures EndsWith(LowerCase(name), ShpSuffix) ==> r == name
    ensures !EndsWith(LowerCase(name), ShpSuffix) ==> r == name + ShpSuffix
  {
    if EndsWith(LowerCase(name), ShpSuffix) then name else name + ShpSuffix
  }

  /** Every normalised name ends with `.shp` (ignoring case). */
  lemma NormalisedEndsWithShp(name: string)
    ensures EndsWith(LowerCase(NormaliseShpName(name)), ShpSuffix)
  {
    var r := NormaliseShpName(name);
    if r != name {
      var low := LowerCase(r);
      assert low[|low| - 4..] == ShpSuffix by {
        forall k | 0 <= k < 4
          ensures low[|low| - 4 + k] == ShpSuffix[k]
        {
          assert r[|name| + k] == ShpSuffix[k];
        }
      }
    }
  }

  /** Normalising a name twice gives the same path as normalising it once. */
  lemma NormaliseIdempotent(name: string)
    ensures NormaliseShpName(NormaliseShpName(name)) == NormaliseShpName(name)
  {
    NormalisedEndsWithShp(name);
  }

  /** The measure handler a reader installs. */
  function MeasureSlot(useArcZ: bool): (t: ShapeType)
    ensures t == ArcZ <==> useArcZ
  {
    if useArcZ then ArcZ else ArcM
  }

  /** The vertex the handler decodes: the measure comes from the M slot or from the Z slot. */
  function DecodeVertex(v: RawVertex, t: ShapeType): (r: MVertex)
    ensures r.x == v.x && r.y == v.y
    ensures r.m == (if t == ArcZ then v.z else v.m)
  {
    MVertex(v.x, v.y, match t case ArcZ => v.z case ArcM => v.m)
  }

  function DecodeLine(line: seq<RawVertex>, t: ShapeType): seq<MVertex>
  {
    seq(|line|, j requires 0 <= j < |line| => DecodeVertex(line[j], t))
  }

  /** The record the reader yields for a raw record under a handler. */
  function Decode(rec: RawRecord, t: ShapeType): ShapeRecord
  {
    ShapeRecord(rec.number, seq(|rec.parts|, i requires 0 <= i < |rec.parts| => DecodeLine(rec.parts[i], t)))
  }

  /** Decoding keeps the record number and the shape; each vertex keeps x and y and takes its measure from the handler's slot. */
  lemma DecodeKeepsShape(rec: RawRecord, t: ShapeType)
    ensures Decode(rec, t).number == rec.number
    ensures |Decode(rec, t).lines| == |rec.parts|
    ensures forall i :: 0 <= i < |rec.parts| ==> |Decode(rec, t).lines[i]| == |rec.parts[i]|
    ensures forall i, j :: 0 <= i < |rec.parts| && 0 <= j < |rec.parts[i]| ==>
      Decode(rec, t).lines[i][j] == DecodeVertex(rec.parts[i][j], t)
  {
  }

  /**
   * A restartable reader over one shapefile that yields each geometry
   * record together with the attribute row at the same position.
   */
  class MyShapefileReader {
    const file: string
    const useArcZForMeasure: bool
    const content: ShapefileContent
    var used: bool
    var handler: ShapeType
    var shpPos: nat   // cursor of the geometry reader
    var dbfPos: nat   // cursor of the attribute reader

    ghost predicate Valid()
      reads this
    {
      && shpPos <= |content.shp|
      && dbfPos <= |content.dbf|
      && handler == MeasureSlot(useArcZForMeasure)
      && (!used ==> shpPos == 0 && dbfPos == 0)
    }

    /** Both cursors at the start, nothing read yet. */
    ghost predicate AtStart()
      reads this
    {
      !used && shpPos == 0 && dbfPos == 0
    }

    /** Reader over a base name, measure in the M slot. */
    constructor FromName(shapefileBaseName: string, content: ShapefileContent)
      ensures file == NormaliseShpName(shapefileBaseName)
      ensures !useArcZForMeasure && handler == ArcM && this.content == content
      ensures Valid() && AtStart()
    {
      file := NormaliseShpName(shapefileBaseName);
      useArcZForMeasure := false;
      this.content := content;
      new;
      Init();
    }

    /** Reader over a `.shp` file, measure in the M slot. */
    constructor FromFile(shapeFile: string, content: ShapefileContent)
      ensures file == shapeFile
      ensures !useArcZForMeasure && handler == ArcM && this.content == content
      ensures Valid() && AtStart()
    {
      file := shapeFile;
      useArcZForMeasure := false;
      this.content := content;
      new;
      Init();
    }

    /** Reader over a `.shp` file, measure in the Z slot iff `useArcZ`. */
    constructor FromFileArcZ(shapeFile: string, useArcZ: bool, content: ShapefileContent)
      ensures file == shapeFile
      ensures useArcZForMeasure == useArcZ && handler == MeasureSlot(useArcZ) && this.content == content
      ensures Valid() && AtStart()
    {
      file := shapeFile;
      useArcZForMeasure := useArcZ;
      this.content := content;
      new;
      Init();
    }

    /** Reopens both readers at their first record and installs the measure handler. */
    method Init()
      modifies this
      ensures Valid() && AtStart()
      ensures handler == MeasureSlot(useArcZForMeasure)
    {
      used := false;
      shpPos := 0;
      if useArcZForMeasure {
        handler := ArcZ;
      } else {
        handler := ArcM;
      }
      dbfPos := 0;
    }

    /** Starts a traversal: a used reader is reopened from the start, a fresh one is left as it is. */
    method Iterator()
      requires Valid()
      modifies this
      ensures Valid() && AtStart()
      ensures old(used) ==> handler == MeasureSlot(useArcZForMeasure)
      ensures !old(used) ==> unchanged(this)
    {
      if used {
        Init();
      }
    }

    /** Whether another record follows; asks the geometry reader only. */
    method HasNext() returns (b: bool)
      requires Valid()
      ensures b <==> shpPos < |content.shp|
    {
      b := shpPos < |content.shp|;
    }

    /**
     * Marks the reader used and reads the next geometry record and the next
     * attribute row. Reading past the end of either file fails.
     */
    method Next() returns (r: Result<ShapeAndAttributes>)
      requires Valid()
      modifies this`used, this`shpPos, this`dbfPos
      ensures Valid() && used
      ensures r.Ok? <==> old(shpPos) < |content.shp| && old(dbfPos) < |content.dbf|
      ensures r.Ok? ==> r.value == ShapeAndAttributes(Decode(content.shp[old(shpPos)], handler), content.dbf[old(dbfPos)])
      ensures r.Ok? ==> shpPos == old(shpPos) + 1 && dbfPos == old(dbfPos) + 1
      ensures r.Err? ==> r.error == EndOfFile
      ensures old(shpPos) < |content.shp| ==> shpPos == old(shpPos) + 1
      ensures old(shpPos) >= |content.shp| ==> shpPos == old(shpPos) && dbfPos == old(dbfPos)
      ensures old(shpPos) < |content.shp| && old(dbfPos) >= |content.dbf| ==> dbfPos == old(dbfPos)
    {
      used := true;
      if shpPos >= |content.shp| {
        return Err(EndOfFile);
      }
      var rec := Decode(content.shp[shpPos], handler);
      shpPos := shpPos + 1;
      if dbfPos >= |content.dbf| {
        return Err(EndOfFile);
      }
      var row := content.dbf[dbfPos];
      dbfPos := dbfPos + 1;
      r := Ok(ShapeAndAttributes(rec, row));
    }

    /** Removal is not supported. */
    method Remove() returns (o: Outcome)
      ensures o == Fail(UnsupportedOperation)
    {
      o := Fail(UnsupportedOperation);
    }
  }
}
