/** The spreadsheet import dialog: maps each parsed sheet row onto the
    product fields through the column alias table, checks the file name,
    and moves between its upload, preview and done steps. The spreadsheet
    itself arrives already read: a row is its `Object.entries`, each cell
    already turned into text by `String(val)`. */
module ImportModal {
  import opened Wrappers
  import opened Text
  import opened Lists
  import opened Records
  import opened Utils
  import opened Db

  /** A sheet row: (header, cell text) pairs in column order. */
  type SheetRow = seq<(string, string)>

  /** An alias table: normalised header to product field. The dialog
      uses `ColumnMap`. */
  type Aliases = map<string, string>

  /** `col.toLowerCase().trim()`. */
  function NormalizeHeader(col: string): (h: string)
    ensures h == [] || (!IsSpace(h[0]) && !IsSpace(h[|h| - 1]))
    ensures NoCapitals(h)
  {
    LowerHasNoCapitals(col);
    TrimKeepsNoCapitals(Lower(col));
    Trim(Lower(col))
  }

  /** `SKU`, `Sku` and `sku` are one header: the case of a header does
      not matter. */
  lemma HeaderIgnoresCase(col: string)
    ensures NormalizeHeader(Lower(col)) == NormalizeHeader(col)
  {
    LowerIdempotent(col);
  }

  /** The field a header maps to, if any. */
  function FieldOf(table: Aliases, col: string): (f: Option<string>)
    ensures f.Some? <==> NormalizeHeader(col) in table
    ensures f.Some? ==> f.value == table[NormalizeHeader(col)]
  {
    var h := NormalizeHeader(col);
    if h in table then Some(table[h]) else None
  }

  /** A header maps to the same field whatever its case. */
  lemma FieldOfIgnoresCase(table: Aliases, col: string)
    ensures FieldOf(table, Lower(col)) == FieldOf(table, col)
  {
    HeaderIgnoresCase(col);
  }

  /** Every alias of the column table, written as it stands, is
      recognised as a header. */
  lemma AliasesRecognised(k: string)
    requires k in ColumnMap
    ensures FieldOf(ColumnMap, k) == Some(ColumnMap[k])
  {
    ColumnMapKeysNormalized();
    assert Lower(k) == k && Trim(k) == k;
  }

  /** The product a row maps to: each recognised column assigns its
      trimmed text to its field, column after column. */
  function MappedRow(table: Aliases, row: SheetRow): (p: Record)
    ensures forall f :: f in p ==> f in table.Values
  {
    if row == [] then map[]
    else
      var p := MappedRow(table, row[..|row| - 1]);
      var (col, val) := row[|row| - 1];
      match FieldOf(table, col)
      case None => p
      case Some(f) => p[f := Trim(val)]
  }

  /** With the dialog's table, a mapped row holds product fields only. */
  lemma MappedRowHasProductFields(row: SheetRow)
    ensures forall f :: f in MappedRow(ColumnMap, row) ==> f in ProductFields
  {
    ColumnMapTargetsFields();
  }

  /** The field each column of `row` maps to, in column order. */
  function RowFields(table: Aliases, row: SheetRow): (fs: seq<Option<string>>)
    ensures |fs| == |row| && forall j :: 0 <= j < |row| ==> fs[j] == FieldOf(table, row[j].0)
  {
    seq(|row|, j requires 0 <= j < |row| => FieldOf(table, row[j].0))
  }

  /** The last position of `fs` holding field `f`, or -1. */
  function LastColumnFor(fs: seq<Option<string>>, f: string): (i: int)
    ensures -1 <= i < |fs|
    ensures i == -1 <==> forall j :: 0 <= j < |fs| ==> fs[j] != Some(f)
    ensures i >= 0 ==> fs[i] == Some(f)
    ensures i >= 0 ==> forall j :: i < j < |fs| ==> fs[j] != Some(f)
  {
    if fs == [] then -1
    else if fs[|fs| - 1] == Some(f) then |fs| - 1
    else LastColumnFor(fs[..|fs| - 1], f)
  }

  /** The fields of a row's leading columns. */
  lemma RowFieldsPrefix(table: Aliases, row: SheetRow)
    requires row != []
    ensures RowFields(table, row[..|row| - 1]) == RowFields(table, row)[..|row| - 1]
  {
  }

  /** A field is set exactly when some column maps to it, and it holds
      the trimmed text of the last such column. */
  lemma {:induction false} MappedRowLastColumnWins(table: Aliases, row: SheetRow, f: string)
    ensures f in MappedRow(table, row) <==> LastColumnFor(RowFields(table, row), f) >= 0
    ensures f in MappedRow(table, row) ==> MappedRow(table, row)[f] == Trim(row[LastColumnFor(RowFields(table, row), f)].1)
  {
    if row != [] {
      MappedRowLastColumnWins(table, row[..|row| - 1], f);
      RowFieldsPrefix(table, row);
    }
  }

  /** A row maps to an empty product exactly when none of its headers is
      recognised. */
  lemma MappedRowEmpty(table: Aliases, row: SheetRow)
    ensures MappedRow(table, row) == map[] <==> forall j :: 0 <= j < |row| ==> RowFields(table, row)[j].None?
  {
    var fs := RowFields(table, row);
    var p := MappedRow(table, row);
    if j :| 0 <= j < |row| && fs[j].Some? {
      MappedRowLastColumnWins(table, row, fs[j].value);
      assert fs[j].value in p;
    } else {
      forall f | f in p ensures false {
        MappedRowLastColumnWins(table, row, f);
      }
      assert p.Keys == {};
    }
  }

  /** Every mapped value is trimmed. */
  lemma MappedValuesTrimmed(table: Aliases, row: SheetRow, f: string)
    requires f in MappedRow(table, row)
    ensures Trim(MappedRow(table, row)[f]) == MappedRow(table, row)[f]
  {
    MappedRowLastColumnWins(table, row, f);
    TrimIdempotent(row[LastColumnFor(RowFields(table, row), f)].1);
  }

  /** The column loop of `parseFile` over one row. */
  method MapRow(table: Aliases, row: SheetRow) returns (product: Record)
    ensures product == MappedRow(table, row)
  {
    product := map[];
    for i := 0 to |row|
      invariant product == MappedRow(table, row[..i])
    {
      assert row[..i + 1][..i] == row[..i];
      var (col, val) := row[i];
      var field := FieldOf(table, col);
      if field.Some? {
        product := product[field.value := Trim(val)];
      }
    }
    assert row[..|row|] == row;
  }

  predicate NonEmpty(p: Record) {
    |p| > 0
  }

  /** The rows `raw.map(...)` builds, before the filter. */
  function MappedRows(table: Aliases, raw: seq<SheetRow>): (ps: seq<Record>)
    ensures |ps| == |raw| && forall i :: 0 <= i < |raw| ==> ps[i] == MappedRow(table, raw[i])
  {
    seq(|raw|, i requires 0 <= i < |raw| => MappedRow(table, raw[i]))
  }

  /** `raw.map(row => product).filter(p => Object.keys(p).length > 0)`:
      the non-empty mapped rows, in sheet order. */
  function MapSheet(table: Aliases, raw: seq<SheetRow>): (rows: seq<Record>)
    ensures IsSubsequence(rows, MappedRows(table, raw))
    ensures forall k :: 0 <= k < |rows| ==> NonEmpty(rows[k])
    // each non-empty product as often as its row occurs, the empty ones never
    ensures forall x :: multiset(rows)[x] == if NonEmpty(x) then multiset(MappedRows(table, raw))[x] else 0
  {
    var rows := Filter(MappedRows(table, raw), NonEmpty);
    assert forall k :: 0 <= k < |rows| ==> rows[k] in rows;
    rows
  }

  /** A sheet row survives exactly when one of its headers is recognised. */
  lemma SurvivingRows(table: Aliases, raw: seq<SheetRow>, i: nat)
    requires i < |raw|
    ensures MappedRow(table, raw[i]) in MapSheet(table, raw) <==>
      exists j :: 0 <= j < |raw[i]| && RowFields(table, raw[i])[j].Some?
  {
    var mapped := MappedRows(table, raw);
    var p := MappedRow(table, raw[i]);
    assert mapped[i] == p;
    assert p in mapped;
    assert p in MapSheet(table, raw) <==> NonEmpty(p);
    assert NonEmpty(p) <==> p != map[] by {
      if p != map[] {
        var f :| f in p;
      }
    }
    MappedRowEmpty(table, raw[i]);
  }

  /** `/\.(xlsx|xls|csv)$/i`. */
  predicate AcceptsFileName(name: string) {
    EndsWith(Lower(name), ".xlsx") || EndsWith(Lower(name), ".xls") || EndsWith(Lower(name), ".csv")
  }

  /** The check ignores the case of the name. */
  lemma AcceptsFileNameIgnoresCase(name: string)
    ensures AcceptsFileName(Lower(name)) == AcceptsFileName(name)
  {
    LowerIdempotent(name);
  }

  const EmptySheet := "A planilha está vazia."
  const NoColumns := "Nenhuma coluna reconhecida. Verifique o modelo de importação."
  const BadFormat := "Formato inválido. Use .xlsx, .xls ou .csv"
  const ReadError := "Erro ao ler planilha: "

  /** What reading the file produced: the sheet's rows, or the message of
      the error the reader threw. */
  datatype SheetRead = ReadFailed(message: string) | Sheet(raw: seq<SheetRow>)

  /** The outcome of `parseFile`: an error to show, or the rows to preview. */
  datatype Parsed = Rejected(error: string) | Mapped(rows: seq<Record>)

  function Parse(read: SheetRead): (r: Parsed)
    ensures read.ReadFailed? ==> r == Rejected(ReadError + read.message)
    ensures read.Sheet? && read.raw == [] ==> r == Rejected(EmptySheet)
    ensures read.Sheet? && read.raw != [] && MapSheet(ColumnMap, read.raw) == [] ==> r == Rejected(NoColumns)
    // the preview is entered only with at least one mapped row
    ensures r.Mapped? ==> read.Sheet? && r.rows == MapSheet(ColumnMap, read.raw) && r.rows != []
    ensures read.Sheet? && MapSheet(ColumnMap, read.raw) != [] ==> r == Mapped(MapSheet(ColumnMap, read.raw))
  {
    match read
    case ReadFailed(m) => Rejected(ReadError + m)
    case Sheet(raw) =>
      if raw == [] then Rejected(EmptySheet)
      else
        var rows := MapSheet(ColumnMap, raw);
        if rows == [] then Rejected(NoColumns) else Mapped(rows)
  }

  datatype Step = Upload | Preview | Done

  /** Rows at most the preview table shows. */
  const PreviewLimit := 20

  /** `rows.slice(0, 20)`. */
  function PreviewRows(rows: seq<Record>): (shown: seq<Record>)
    ensures |shown| <= PreviewLimit && |shown| <= |rows| && shown == rows[..|shown|]
    ensures |rows| <= PreviewLimit ==> shown == rows
    ensures |rows| > PreviewLimit ==> |shown| == PreviewLimit
  {
    Take(rows, PreviewLimit)
  }

  /** The count in the "… e mais N produtos" note, 0 when it is not shown. */
  function Overflow(rows: seq<Record>): (n: nat)
    ensures n > 0 <==> |rows| > PreviewLimit
    ensures |rows| > PreviewLimit ==> n == |rows| - PreviewLimit
  {
    if |rows| > PreviewLimit then |rows| - PreviewLimit else 0
  }

  /** The preview and its note account for every row, none twice. */
  lemma PreviewAccountsForAllRows(rows: seq<Record>)
    ensures |PreviewRows(rows)| + Overflow(rows) == |rows|
    ensures PreviewRows(rows) == rows[..|rows| - Overflow(rows)]
  {
  }

  /** The dialog's state. */
  class Dialog {
    var step: Step
    var rows: seq<Record>
    var errors: seq<string>

    /** The preview step always has rows to show, none of them empty. */
    predicate Valid()
      reads this
    {
      (step == Preview ==> rows != []) && forall k :: 0 <= k < |rows| ==> NonEmpty(rows[k])
    }

    constructor()
      ensures step == Upload && rows == [] && errors == []
      ensures Valid()
    {
      step := Upload;
      rows := [];
      errors := [];
    }

    /** `handleFile` followed by `parseFile`'s load handler: no file does
        nothing, a bad name or a failed parse only shows an error, and a
        parse with rows enters the preview with its errors cleared. */
    method HandleFile(file: Option<string>, read: SheetRead)
      requires Valid()
      modifies this
      ensures Valid()
      ensures file.None? ==> step == old(step) && rows == old(rows) && errors == old(errors)
      ensures file.Some? && !AcceptsFileName(file.value) ==>
        step == old(step) && rows == old(rows) && errors == [BadFormat]
      ensures file.Some? && AcceptsFileName(file.value) && Parse(read).Rejected? ==>
        step == old(step) && rows == old(rows) && errors == [Parse(read).error]
      ensures file.Some? && AcceptsFileName(file.value) && Parse(read).Mapped? ==>
        step == Preview && rows == Parse(read).rows && errors == []
    {
      if file.None? {
        return;
      }
      if !AcceptsFileName(file.value) {
        errors := [BadFormat];
        return;
      }
      var parsed := Parse(read);
      if parsed.Rejected? {
        errors := [parsed.error];
        return;
      }
      rows := parsed.rows;
      errors := [];
      step := Preview;
    }

    /** The "Voltar" button. */
    method Back()
      requires Valid()
      modifies this
      ensures Valid()
      ensures step == Upload && rows == old(rows) && errors == old(errors)
    {
      step := Upload;
    }

    /** `handleImport`: imports the previewed rows into the local store
        and moves to the done step. */
    method Import(store: LocalStore, now: string, uuid: nat -> string)
      requires Valid()
      modifies this, store
      ensures Valid()
      ensures store.products == ImportAll(old(store.products), rows, now, uuid)
      ensures step == Done && rows == old(rows) && errors == old(errors)
    {
      var _ := store.BulkImport(rows, now, uuid);
      step := Done;
    }
  }
}
