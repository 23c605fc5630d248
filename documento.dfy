/**
 * The certificate document: the placeholder map built from an issued
 * certificate, and the substitution of `{{key}}` placeholders into the runs
 * of a template's paragraphs.
 */
module DocumentoCertificado {
  import opened Wrappers
  import opened Strings
  import opened Modelos
  import opened Peticiones

  /** One entry of the placeholder dictionary, its value already passed through `str()`. */
  datatype Field = Field(key: string, value: string)

  /** The dictionary's value for `key`: that of its first entry with the key. */
  function Lookup(fields: seq<Field>, key: string): Option<string> {
    if fields == [] then None
    else if fields[0].key == key then Some(fields[0].value)
    else Lookup(fields[1..], key)
  }

  /** `Lookup` finds a value exactly when some entry has the key, and then it is that of the first such entry. */
  lemma {:induction false} LookupIff(fields: seq<Field>, key: string)
    ensures Lookup(fields, key).Some? <==> exists i :: 0 <= i < |fields| && fields[i].key == key
    ensures Lookup(fields, key).Some? ==>
              exists i :: 0 <= i < |fields| && fields[i] == Field(key, Lookup(fields, key).value)
                && forall t :: 0 <= t < i ==> fields[t].key != key
    decreases |fields|
  {
    if fields != [] && fields[0].key != key {
      LookupIff(fields[1..], key);
      if exists i :: 0 <= i < |fields| && fields[i].key == key {
        var i :| 0 <= i < |fields| && fields[i].key == key;
        assert fields[1..][i - 1].key == key;
      }
      if Lookup(fields, key).Some? {
        var i :| 0 <= i < |fields[1..]| && fields[1..][i] == Field(key, Lookup(fields, key).value)
                 && forall t :: 0 <= t < i ==> fields[1..][t].key != key;
        assert fields[i + 1] == fields[1..][i];
        assert forall t :: 1 <= t < i + 1 ==> fields[t] == fields[1..][t - 1];
      }
    }
  }

  /** No key occurs twice: the sequence is a faithful Python dict. */
  predicate DistinctKeys(fields: seq<Field>) {
    forall i, j :: 0 <= i < j < |fields| ==> fields[i].key != fields[j].key
  }

  /** Python's `str()` of a nullable text value. */
  function Str(o: Option<string>): string {
    if o.Some? then o.value else "None"
  }

  /** `str(d.get(key, 'N/A'))`. */
  function GetOrNA(j: Json<string>): string {
    match j
    case Absent => "N/A"
    case Null => "None"
    case Present(v) => v
  }

  /** `str(d[key])` for a key that is present. */
  function Item(j: Json<string>): string
    requires !j.Absent?
  {
    Str(Column(j))
  }

  /** The entries that do not depend on the technical sheets. */
  function HeaderFields(fecha: string, u: Usuario, descripcion: Json<string>): seq<Field> {
    [ Field("fecha", fecha),
      Field("cliente", Str(u.nombre)),
      Field("representante", "N/A"),
      Field("telefono", Str(u.telefono)),
      Field("nit", "N/A"),
      Field("direccion", Str(u.direccion)),
      Field("descripcion_servicio", GetOrNA(descripcion)) ]
  }

  /** The stems of the six numbered keys each rendered sheet fills. */
  const SlotStems: seq<string> := ["producto", "ingrediente", "dosis", "categoria", "lugar", "presentacion"]

  /** `f'{stem}_{i}'`. */
  function SlotKey(stem: string, i: nat): string {
    stem + "_" + NatToString(i)
  }

  /** The value sheet `f` gives the key of stem number `s`. */
  function SlotValue(s: nat, f: FichaTecnicaBody): string
    requires s < 6 && FichaKeysPresent(f)
  {
    if s == 0 then Item(f.productoAplicado)
    else if s == 1 then Item(f.ingredienteActivo)
    else if s == 2 then Item(f.dosis)
    else if s == 3 then GetOrNA(f.categoriaToxica)
    else if s == 4 then GetOrNA(f.lugarAplicado)
    else GetOrNA(f.presentacion)
  }

  /** The six entries sheet number `i` contributes. */
  function SheetFields(i: nat, f: FichaTecnicaBody): seq<Field>
    requires FichaKeysPresent(f)
  {
    [ Field(SlotKey("producto", i), Item(f.productoAplicado)),
      Field(SlotKey("ingrediente", i), Item(f.ingredienteActivo)),
      Field(SlotKey("dosis", i), Item(f.dosis)),
      Field(SlotKey("categoria", i), GetOrNA(f.categoriaToxica)),
      Field(SlotKey("lugar", i), GetOrNA(f.lugarAplicado)),
      Field(SlotKey("presentacion", i), GetOrNA(f.presentacion)) ]
  }

  /** The entries of the sheets `fs`, numbered from `start`. */
  function Sheets(fs: seq<FichaTecnicaBody>, start: nat): seq<Field>
    requires forall k :: 0 <= k < |fs| ==> FichaKeysPresent(fs[k])
  {
    if fs == [] then [] else SheetFields(start, fs[0]) + Sheets(fs[1..], start + 1)
  }

  function Min(a: nat, b: nat): nat {
    if a < b then a else b
  }

  /**
   * The placeholder dictionary of an issued certificate: the header entries,
   * then the entries of the first three sheets, numbered from 1.
   */
  function FieldMap(fecha: string, u: Usuario, descripcion: Json<string>, fichas: seq<FichaTecnicaBody>): seq<Field>
    requires forall k :: 0 <= k < |fichas| ==> FichaKeysPresent(fichas[k])
  {
    HeaderFields(fecha, u, descripcion) + Sheets(fichas[..Min(3, |fichas|)], 1)
  }

  lemma {:induction false} SheetsAppend(fs: seq<FichaTecnicaBody>, f: FichaTecnicaBody, start: nat)
    requires forall k :: 0 <= k < |fs| ==> FichaKeysPresent(fs[k])
    requires FichaKeysPresent(f)
    ensures Sheets(fs + [f], start) == Sheets(fs, start) + SheetFields(start + |fs|, f)
    decreases |fs|
  {
    if fs != [] {
      assert (fs + [f])[1..] == fs[1..] + [f];
      SheetsAppend(fs[1..], f, start + 1);
    }
  }

  /**
   * Builds the dictionary as the handler does: seven header entries, then
   * six entries for each of the first three sheets, in order.
   */
  method BuildFieldMap(fecha: string, u: Usuario, descripcion: Json<string>, fichas: seq<FichaTecnicaBody>)
    returns (fields: seq<Field>)
    requires forall k :: 0 <= k < |fichas| ==> FichaKeysPresent(fichas[k])
    ensures fields == FieldMap(fecha, u, descripcion, fichas)
  {
    fields := HeaderFields(fecha, u, descripcion);
    var n := Min(3, |fichas|);
    for i := 0 to n
      invariant fields == HeaderFields(fecha, u, descripcion) + Sheets(fichas[..i], 1)
    {
      SheetsAppend(fichas[..i], fichas[i], 1);
      assert fichas[..i + 1] == fichas[..i] + [fichas[i]];
      fields := fields + SheetFields(i + 1, fichas[i]);
    }
  }

  // ---------------------------------------------------------------------
  // Facts about the dictionary

  lemma {:induction false} LookupAppend(a: seq<Field>, b: seq<Field>, key: string)
    ensures Lookup(a + b, key) == if Lookup(a, key).Some? then Lookup(a, key) else Lookup(b, key)
    decreases |a|
  {
    if a != [] {
      assert (a + b)[0] == a[0];
      assert (a + b)[1..] == a[1..] + b;
      LookupAppend(a[1..], b, key);
    } else {
      assert a + b == b;
    }
  }

  /** In `a + "_" + x` with `a` free of underscores, the first underscore is at `|a|`. */
  lemma FirstUnderscore(a: string, x: string)
    requires '_' !in a
    ensures (a + "_" + x)[|a|] == '_'
    ensures forall k :: 0 <= k < |a| ==> (a + "_" + x)[k] != '_'
  {
    assert forall k :: 0 <= k < |a| ==> (a + "_" + x)[k] == a[k];
  }

  /** Splitting `a + "_" + x` at its first underscore recovers `a` and `x`. */
  lemma SplitAtUnderscore(a: string, x: string, b: string, y: string)
    requires '_' !in a && '_' !in b
    requires a + "_" + x == b + "_" + y
    ensures a == b && x == y
  {
    var s := a + "_" + x;
    FirstUnderscore(a, x);
    FirstUnderscore(b, y);
    assert |a| == |b|;
    assert a == s[..|a|];
    assert b == (b + "_" + y)[..|b|];
    assert x == s[|a| + 1..];
    assert y == (b + "_" + y)[|b| + 1..];
  }

  lemma SlotStemsWellFormed()
    ensures forall s :: 0 <= s < 6 ==> '_' !in SlotStems[s] && |SlotStems[s]| > 0
    ensures forall s, t :: 0 <= s < t < 6 ==> SlotStems[s] != SlotStems[t]
  {
    assert SlotStems[2][0] != SlotStems[4][0];
  }

  /** A numbered key determines its stem and its number. */
  lemma SlotKeyInjective(s: nat, i: nat, t: nat, j: nat)
    requires s < 6 && t < 6
    requires SlotKey(SlotStems[s], i) == SlotKey(SlotStems[t], j)
    ensures s == t && i == j
  {
    SlotStemsWellFormed();
    SplitAtUnderscore(SlotStems[s], NatToString(i), SlotStems[t], NatToString(j));
    NatToStringInjective(i, j);
  }

  /** A numbered key ends in a digit. */
  lemma SlotKeyEndsInDigit(stem: string, i: nat)
    ensures var k := SlotKey(stem, i); |k| > 0 && IsDigit(k[|k| - 1])
  {
    var d := NatToString(i);
    assert SlotKey(stem, i)[|SlotKey(stem, i)| - 1] == d[|d| - 1];
  }

  lemma HeaderHasNoSlotKey(fecha: string, u: Usuario, descripcion: Json<string>, key: string)
    requires |key| > 0 && IsDigit(key[|key| - 1])
    ensures Lookup(HeaderFields(fecha, u, descripcion), key) == None
  {
    var h := HeaderFields(fecha, u, descripcion);
    forall i | 0 <= i < |h|
      ensures h[i].key != key
    {
      var k := h[i].key;
      assert |k| > 0 && !IsDigit(k[|k| - 1]);
    }
    LookupIff(h, key);
  }

  lemma SheetFieldsAt(i: nat, f: FichaTecnicaBody, s: nat)
    requires s < 6 && FichaKeysPresent(f)
    ensures |SheetFields(i, f)| == 6
    ensures SheetFields(i, f)[s] == Field(SlotKey(SlotStems[s], i), SlotValue(s, f))
  {
  }

  lemma LookupSheetFields(j: nat, f: FichaTecnicaBody, s: nat, i: nat)
    requires s < 6 && FichaKeysPresent(f)
    ensures Lookup(SheetFields(j, f), SlotKey(SlotStems[s], i)) == if i == j then Some(SlotValue(s, f)) else None
  {
    var sf := SheetFields(j, f);
    var key := SlotKey(SlotStems[s], i);
    forall t | 0 <= t < 6
      ensures sf[t].key == key <==> t == s && i == j
    {
      SheetFieldsAt(j, f, t);
      if sf[t].key == key {
        SlotKeyInjective(t, j, s, i);
      }
    }
    if i == j {
      SheetFieldsAt(j, f, s);
      LookupFirstMatch(sf, key, s);
    } else {
      LookupIff(sf, key);
    }
  }

  /** The value of a key is that of its only entry. */
  lemma LookupFirstMatch(fields: seq<Field>, key: string, m: nat)
    requires m < |fields| && fields[m].key == key
    requires forall t :: 0 <= t < |fields| && t != m ==> fields[t].key != key
    ensures Lookup(fields, key) == Some(fields[m].value)
  {
    LookupIff(fields, key);
  }

  lemma {:induction false} LookupSheets(fs: seq<FichaTecnicaBody>, start: nat, s: nat, i: nat)
    requires s < 6
    requires forall k :: 0 <= k < |fs| ==> FichaKeysPresent(fs[k])
    ensures Lookup(Sheets(fs, start), SlotKey(SlotStems[s], i))
            == if start <= i < start + |fs| then Some(SlotValue(s, fs[i - start])) else None
    decreases |fs|
  {
    if fs != [] {
      LookupAppend(SheetFields(start, fs[0]), Sheets(fs[1..], start + 1), SlotKey(SlotStems[s], i));
      LookupSheetFields(start, fs[0], s, i);
      LookupSheets(fs[1..], start + 1, s, i);
    }
  }

  /**
   * The numbered keys: `stem_i` is filled from sheet `i - 1` exactly when
   * `1 <= i <= min(3, n)`; later sheets fill no slot.
   */
  lemma FieldMapSlots(fecha: string, u: Usuario, descripcion: Json<string>, fichas: seq<FichaTecnicaBody>, s: nat, i: nat)
    requires forall k :: 0 <= k < |fichas| ==> FichaKeysPresent(fichas[k])
    requires s < 6
    ensures Lookup(FieldMap(fecha, u, descripcion, fichas), SlotKey(SlotStems[s], i))
            == if 1 <= i <= Min(3, |fichas|) then Some(SlotValue(s, fichas[i - 1])) else None
  {
    var key := SlotKey(SlotStems[s], i);
    var fs := fichas[..Min(3, |fichas|)];
    LookupAppend(HeaderFields(fecha, u, descripcion), Sheets(fs, 1), key);
    SlotKeyEndsInDigit(SlotStems[s], i);
    HeaderHasNoSlotKey(fecha, u, descripcion, key);
    LookupSheets(fs, 1, s, i);
  }

  /**
   * The header keys: `representante` and `nit` are always 'N/A' (a
   * `Usuario` has neither attribute), `cliente`, `telefono` and `direccion`
   * carry the user's columns.
   */
  lemma FieldMapHeader(fecha: string, u: Usuario, descripcion: Json<string>, fichas: seq<FichaTecnicaBody>)
    requires forall k :: 0 <= k < |fichas| ==> FichaKeysPresent(fichas[k])
    ensures var fm := FieldMap(fecha, u, descripcion, fichas);
            && Lookup(fm, "fecha") == Some(fecha)
            && Lookup(fm, "cliente") == Some(Str(u.nombre))
            && Lookup(fm, "representante") == Some("N/A")
            && Lookup(fm, "telefono") == Some(Str(u.telefono))
            && Lookup(fm, "nit") == Some("N/A")
            && Lookup(fm, "direccion") == Some(Str(u.direccion))
            && Lookup(fm, "descripcion_servicio") == Some(GetOrNA(descripcion))
  {
    var h := HeaderFields(fecha, u, descripcion);
    var rest := Sheets(fichas[..Min(3, |fichas|)], 1);
    LookupFirstMatch(h, "fecha", 0);
    LookupFirstMatch(h, "cliente", 1);
    LookupFirstMatch(h, "representante", 2);
    LookupFirstMatch(h, "telefono", 3);
    LookupFirstMatch(h, "nit", 4);
    LookupFirstMatch(h, "direccion", 5);
    LookupFirstMatch(h, "descripcion_servicio", 6);
    LookupAppend(h, rest, "fecha");
    LookupAppend(h, rest, "cliente");
    LookupAppend(h, rest, "representante");
    LookupAppend(h, rest, "telefono");
    LookupAppend(h, rest, "nit");
    LookupAppend(h, rest, "direccion");
    LookupAppend(h, rest, "descripcion_servicio");
  }

  lemma {:induction false} SheetsLength(fs: seq<FichaTecnicaBody>, start: nat)
    requires forall k :: 0 <= k < |fs| ==> FichaKeysPresent(fs[k])
    ensures |Sheets(fs, start)| == 6 * |fs|
    decreases |fs|
  {
    if fs != [] {
      SheetFieldsAt(start, fs[0], 0);
      SheetsLength(fs[1..], start + 1);
    }
  }

  /** Entry `idx` of the sheets holds stem `idx % 6` of sheet number `start + idx / 6`. */
  lemma {:induction false} SheetsKeyAt(fs: seq<FichaTecnicaBody>, start: nat, idx: nat)
    requires forall k :: 0 <= k < |fs| ==> FichaKeysPresent(fs[k])
    requires idx < 6 * |fs|
    ensures idx < |Sheets(fs, start)|
    ensures Sheets(fs, start)[idx].key == SlotKey(SlotStems[idx % 6], start + idx / 6)
    decreases |fs|
  {
    SheetsLength(fs, start);
    var head := SheetFields(start, fs[0]);
    var tail := Sheets(fs[1..], start + 1);
    assert Sheets(fs, start) == head + tail;
    SheetFieldsAt(start, fs[0], 0);
    if idx < 6 {
      SheetFieldsAt(start, fs[0], idx);
      assert Sheets(fs, start)[idx] == head[idx];
    } else {
      SheetsKeyAt(fs[1..], start + 1, idx - 6);
      assert Sheets(fs, start)[idx] == tail[idx - 6];
      assert (idx - 6) % 6 == idx % 6 && start + 1 + (idx - 6) / 6 == start + idx / 6;
    }
  }

  /** The header keys are pairwise different and none ends in a digit. */
  lemma HeaderKeysDistinct(fecha: string, u: Usuario, descripcion: Json<string>)
    ensures DistinctKeys(HeaderFields(fecha, u, descripcion))
    ensures forall i :: 0 <= i < |HeaderFields(fecha, u, descripcion)| ==>
              var k := HeaderFields(fecha, u, descripcion)[i].key; |k| > 0 && !IsDigit(k[|k| - 1])
  {
    var h := HeaderFields(fecha, u, descripcion);
    forall i, j | 0 <= i < j < |h|
      ensures h[i].key != h[j].key
    {
      assert |h[i].key| != |h[j].key|;
    }
  }

  /** The numbered keys are pairwise different and each ends in a digit. */
  lemma SheetsKeysDistinct(fs: seq<FichaTecnicaBody>, start: nat)
    requires forall k :: 0 <= k < |fs| ==> FichaKeysPresent(fs[k])
    ensures DistinctKeys(Sheets(fs, start))
    ensures forall i :: 0 <= i < |Sheets(fs, start)| ==>
              var k := Sheets(fs, start)[i].key; |k| > 0 && IsDigit(k[|k| - 1])
  {
    var sh := Sheets(fs, start);
    SheetsLength(fs, start);
    forall i | 0 <= i < |sh|
      ensures |sh[i].key| > 0 && IsDigit(sh[i].key[|sh[i].key| - 1])
    {
      SheetsKeyAt(fs, start, i);
      SlotKeyEndsInDigit(SlotStems[i % 6], start + i / 6);
    }
    forall i, j | 0 <= i < j < |sh|
      ensures sh[i].key != sh[j].key
    {
      SheetsKeyAt(fs, start, i);
      SheetsKeyAt(fs, start, j);
      if sh[i].key == sh[j].key {
        SlotKeyInjective(i % 6, start + i / 6, j % 6, start + j / 6);
      }
    }
  }

  /** The dictionary never lists a key twice. */
  lemma FieldMapDistinctKeys(fecha: string, u: Usuario, descripcion: Json<string>, fichas: seq<FichaTecnicaBody>)
    requires forall k :: 0 <= k < |fichas| ==> FichaKeysPresent(fichas[k])
    ensures DistinctKeys(FieldMap(fecha, u, descripcion, fichas))
  {
    var h := HeaderFields(fecha, u, descripcion);
    var sh := Sheets(fichas[..Min(3, |fichas|)], 1);
    HeaderKeysDistinct(fecha, u, descripcion);
    SheetsKeysDistinct(fichas[..Min(3, |fichas|)], 1);
    var fm := h + sh;
    forall i, j | 0 <= i < j < |fm|
      ensures fm[i].key != fm[j].key
    {
      if j < |h| {
        assert fm[i] == h[i] && fm[j] == h[j];
      } else if i < |h| {
        assert fm[i] == h[i] && fm[j] == sh[j - |h|];
      } else {
        assert fm[i] == sh[i - |h|] && fm[j] == sh[j - |h|];
      }
    }
  }

  // ---------------------------------------------------------------------
  // Placeholder substitution

  /** A paragraph, as the texts of its runs. */
  type Paragraph = seq<string>

  /** `paragraph.text`: the runs' texts joined. */
  function Text(p: Paragraph): string {
    if p == [] then "" else p[0] + Text(p[1..])
  }

  /** `f"{{{{{key}}}}}"`, i.e. `{{key}}`. */
  function Placeholder(key: string): (r: string)
    ensures |r| == |key| + 4
  {
    "{{" + key + "}}"
  }

  /** `run.text = run.text.replace(pat, rep)` for every run of the paragraph. */
  function ReplaceInRuns(p: Paragraph, pat: string, rep: string): (r: Paragraph)
    requires |pat| > 0
    ensures |r| == |p|
  {
    seq(|p|, j requires 0 <= j < |p| => ReplaceAll(p[j], pat, rep))
  }

  /** One dictionary entry: its placeholder is replaced run by run if the paragraph's text contains it. */
  function FillStep(p: Paragraph, f: Field): Paragraph {
    var pat := Placeholder(f.key);
    if IsSubstring(pat, Text(p)) then ReplaceInRuns(p, pat, f.value) else p
  }

  /** Every dictionary entry in order, each seeing the text the previous ones left. */
  function FillParagraph(p: Paragraph, fields: seq<Field>): (r: Paragraph)
    ensures |r| == |p|
    decreases |fields|
  {
    if fields == [] then p else FillParagraph(FillStep(p, fields[0]), fields[1..])
  }

  function FillDocument(doc: seq<Paragraph>, fields: seq<Field>): (r: seq<Paragraph>)
    ensures |r| == |doc|
  {
    seq(|doc|, i requires 0 <= i < |doc| => FillParagraph(doc[i], fields))
  }

  lemma {:induction false} FillParagraphAppend(p: Paragraph, fields: seq<Field>, f: Field)
    ensures FillParagraph(p, fields + [f]) == FillStep(FillParagraph(p, fields), f)
    decreases |fields|
  {
    if fields != [] {
      assert (fields + [f])[1..] == fields[1..] + [f];
      FillParagraphAppend(FillStep(p, fields[0]), fields[1..], f);
    }
  }

  /**
   * Rewrites the template in place, as the handler does: for each paragraph
   * and each dictionary entry, when the paragraph's text contains the
   * entry's placeholder, every run's text has it replaced.
   */
  method FillTemplate(doc: array<Paragraph>, fields: seq<Field>)
    modifies doc
    ensures doc[..] == FillDocument(old(doc[..]), fields)
  {
    for i := 0 to doc.Length
      invariant forall k :: 0 <= k < i ==> doc[k] == FillParagraph(old(doc[k]), fields)
      invariant forall k :: i <= k < doc.Length ==> doc[k] == old(doc[k])
    {
      for f := 0 to |fields|
        invariant doc[i] == FillParagraph(old(doc[i]), fields[..f])
        invariant forall k :: 0 <= k < i ==> doc[k] == FillParagraph(old(doc[k]), fields)
        invariant forall k :: i < k < doc.Length ==> doc[k] == old(doc[k])
      {
        FillParagraphAppend(old(doc[i]), fields[..f], fields[f]);
        assert fields[..f + 1] == fields[..f] + [fields[f]];
        var pat := Placeholder(fields[f].key);
        if IsSubstring(pat, Text(doc[i])) {
          ghost var p0 := doc[i];
          var runs := |doc[i]|;
          for j := 0 to runs
            invariant |doc[i]| == |p0|
            invariant forall m :: 0 <= m < j ==> doc[i][m] == ReplaceAll(p0[m], pat, fields[f].value)
            invariant forall m :: j <= m < |p0| ==> doc[i][m] == p0[m]
            invariant forall k :: 0 <= k < i ==> doc[k] == FillParagraph(old(doc[k]), fields)
            invariant forall k :: i < k < doc.Length ==> doc[k] == old(doc[k])
          {
            doc[i] := doc[i][j := ReplaceAll(doc[i][j], pat, fields[f].value)];
          }
          assert doc[i] == ReplaceInRuns(p0, pat, fields[f].value);
        }
      }
      assert fields[..|fields|] == fields;
    }
  }

  // ---------------------------------------------------------------------
  // Facts about substitution

  /** A paragraph whose text contains no entry's placeholder is left as it is. */
  lemma {:induction false} FillWithoutPlaceholders(p: Paragraph, fields: seq<Field>)
    requires forall k :: 0 <= k < |fields| ==> !IsSubstring(Placeholder(fields[k].key), Text(p))
    ensures FillParagraph(p, fields) == p
    decreases |fields|
  {
    if fields != [] {
      FillWithoutPlaceholders(p, fields[1..]);
    }
  }

  /**
   * Substitution works run by run: a paragraph none of whose runs contains
   * an entry's placeholder is left as it is, even when the placeholder
   * appears in its text split across runs.
   */
  lemma {:induction false} FillRunsWithoutPlaceholders(p: Paragraph, fields: seq<Field>)
    requires forall k, j :: 0 <= k < |fields| && 0 <= j < |p| ==> !IsSubstring(Placeholder(fields[k].key), p[j])
    ensures FillParagraph(p, fields) == p
    decreases |fields|
  {
    if fields != [] {
      var pat := Placeholder(fields[0].key);
      assert ReplaceInRuns(p, pat, fields[0].value) == p;
      FillRunsWithoutPlaceholders(p, fields[1..]);
    }
  }

  predicate BraceFree(s: string) {
    '{' !in s && '}' !in s
  }

  /** With brace-free keys, the placeholder of one key occurs in that of another only if the keys are equal. */
  lemma PlaceholderOccursOnlyInItself(a: string, b: string)
    requires BraceFree(a) && BraceFree(b)
    requires IsSubstring(Placeholder(a), Placeholder(b))
    ensures a == b
  {
    var pa, pb := Placeholder(a), Placeholder(b);
    IsSubstringIff(pa, pb);
    var i :| OccursAt(pa, pb, i);
    assert pb[i..i + |pa|][1] == '{';
    assert forall m :: 2 <= m < |pb| ==> pb[m] != '{' by {
      forall m | 2 <= m < |pb| ensures pb[m] != '{' {
        if m < |b| + 2 { assert pb[m] == b[m - 2]; }
      }
    }
    assert i == 0;
    assert pa[|a| + 2] == '}';
    assert pb[|a| + 2] == '}';
    assert a == pb[2..|a| + 2];
    assert b == pb[2..|b| + 2];
  }

  /**
   * A placeholder split after its key, `["{{" + key, "}}"]`, is seen by the
   * test on the paragraph's text but survives every dictionary.
   */
  lemma SplitPlaceholderKept(key: string, fields: seq<Field>)
    requires '}' !in key
    ensures IsSubstring(Placeholder(key), Text(["{{" + key, "}}"]))
    ensures FillParagraph(["{{" + key, "}}"], fields) == ["{{" + key, "}}"]
  {
    var p: Paragraph := ["{{" + key, "}}"];
    assert p[1..] == ["}}"] && ["}}"][1..] == [];
    assert Text(["}}"]) == "}}" + "";
    assert Text(p) == ("{{" + key) + ("}}" + "");
    assert Text(p) == Placeholder(key);
    assert Text(p)[..|Placeholder(key)|] == Placeholder(key);
    forall k, j | 0 <= k < |fields| && 0 <= j < |p|
      ensures !IsSubstring(Placeholder(fields[k].key), p[j])
    {
      var pat := Placeholder(fields[k].key);
      if j == 0 && IsSubstring(pat, p[j]) {
        assert pat[|pat| - 1] == '}';
        OccurrenceChars(pat, p[j], '}');
      }
    }
    FillRunsWithoutPlaceholders(p, fields);
  }

  /** Where the braces of a placeholder are. */
  lemma PlaceholderShape(key: string)
    requires BraceFree(key)
    ensures var pk := Placeholder(key);
            && pk[0] == '{' && pk[1] == '{' && pk[|key| + 2] == '}'
            && (forall m :: 0 <= m < |key| ==> pk[m + 2] == key[m])
            && (forall m :: 2 <= m < |pk| ==> pk[m] != '{')
  {
    var pk := Placeholder(key);
    forall m | 2 <= m < |pk| ensures pk[m] != '{' {
      if m < |key| + 2 { assert pk[m] == key[m - 2]; }
    }
  }

  /** A pattern does not occur at `q` when one of its characters differs there. */
  lemma MismatchAt(pat: string, s: string, q: nat, m: nat)
    requires m < |pat| && q + m < |s| && s[q + m] != pat[m]
    ensures !OccursAt(pat, s, q)
  {
    if q + |pat| <= |s| {
      assert s[q..q + |pat|][m] == s[q + m];
    }
  }

  /** Positions `0` and `1` of a placeholder occurrence at `i` hold `{`, the rest do not. */
  lemma OccurrenceBraces(a: string, s: string, i: nat)
    requires BraceFree(a) && OccursAt(Placeholder(a), s, i)
    ensures s[i] == '{' && s[i + 1] == '{'
    ensures forall k :: i + 2 <= k < i + |Placeholder(a)| ==> s[k] != '{'
    ensures s[i + |a| + 2] == '}'
    ensures forall m :: 0 <= m < |a| ==> s[i + m + 2] == a[m]
  {
    var pa := Placeholder(a);
    PlaceholderShape(a);
    assert forall m :: 0 <= m < |pa| ==> s[i + m] == pa[m] by {
      forall m | 0 <= m < |pa| ensures s[i + m] == pa[m] { assert s[i..i + |pa|][m] == pa[m]; }
    }
  }

  /** Two occurrences of brace-free placeholders cannot start at different but overlapping places. */
  lemma ShiftedPlaceholdersDiffer(a: string, b: string, s: string, i: nat, q: nat)
    requires BraceFree(a) && BraceFree(b)
    requires OccursAt(Placeholder(a), s, i) && q != i
    requires q < i + |Placeholder(a)| && i < q + |Placeholder(b)|
    ensures !OccursAt(Placeholder(b), s, q)
  {
    OccurrenceBraces(a, s, i);
    PlaceholderShape(b);
    var pb := Placeholder(b);
    if q + 1 < i {
      assert s[q + (i - q)] == s[i];
      MismatchAt(pb, s, q, i - q);
    } else if q + 1 == i {
      assert s[q + 2] == s[i + 1];
      MismatchAt(pb, s, q, 2);
    } else if q > i + 1 {
      assert s[q + 0] == s[q];
      MismatchAt(pb, s, q, 0);
    } else {
      assert s[q + 1] == s[i + 2];
      MismatchAt(pb, s, q, 1);
    }
  }

  /** Placeholders of different brace-free keys cannot occur at the same place. */
  lemma AlignedPlaceholdersDiffer(a: string, b: string, s: string, i: nat)
    requires BraceFree(a) && BraceFree(b) && a != b
    requires OccursAt(Placeholder(a), s, i)
    ensures !OccursAt(Placeholder(b), s, i)
  {
    OccurrenceBraces(a, s, i);
    PlaceholderShape(b);
    var pb := Placeholder(b);
    if |a| < |b| {
      assert s[i + (|a| + 2)] == '}';
      MismatchAt(pb, s, i, |a| + 2);
    } else if |b| < |a| {
      assert s[i + (|b| + 2)] == s[i + |b| + 2] == a[|b|];
      MismatchAt(pb, s, i, |b| + 2);
    } else {
      var m0 :| 0 <= m0 < |a| && a[m0] != b[m0];
      assert s[i + (m0 + 2)] == s[i + m0 + 2] == a[m0];
      MismatchAt(pb, s, i, m0 + 2);
    }
  }

  /** An occurrence of one brace-free key's placeholder overlaps no occurrence of another's. */
  lemma PlaceholdersDoNotOverlap(a: string, b: string, s: string, i: nat)
    requires BraceFree(a) && BraceFree(b) && a != b
    requires OccursAt(Placeholder(a), s, i)
    ensures forall q :: 0 <= q < i + |Placeholder(a)| && i < q + |Placeholder(b)| ==> !OccursAt(Placeholder(b), s, q)
  {
    forall q | 0 <= q < i + |Placeholder(a)| && i < q + |Placeholder(b)|
      ensures !OccursAt(Placeholder(b), s, q)
    {
      if q == i {
        AlignedPlaceholdersDiffer(a, b, s, i);
      } else {
        ShiftedPlaceholdersDiffer(a, b, s, i, q);
      }
    }
  }

  /**
   * A placeholder whose key is not in the dictionary survives in the run
   * that holds it, whatever else the run and the paragraph hold.
   */
  lemma {:induction false} UnknownPlaceholderKept(key: string, p: Paragraph, j: nat, fields: seq<Field>)
    requires BraceFree(key) && j < |p| && IsSubstring(Placeholder(key), p[j])
    requires forall k :: 0 <= k < |fields| ==> BraceFree(fields[k].key) && fields[k].key != key
    ensures IsSubstring(Placeholder(key), FillParagraph(p, fields)[j])
    decreases |fields|
  {
    if fields != [] {
      var f := fields[0];
      var p' := FillStep(p, f);
      if IsSubstring(Placeholder(f.key), Text(p)) {
        IsSubstringIff(Placeholder(key), p[j]);
        var i :| OccursAt(Placeholder(key), p[j], i);
        PlaceholdersDoNotOverlap(key, f.key, p[j], i);
        ReplaceAllKeepsOccurrence(p[j], Placeholder(f.key), f.value, Placeholder(key), i);
      }
      UnknownPlaceholderKept(key, p', j, fields[1..]);
    }
  }

  lemma {:induction false} FillParagraphConcat(p: Paragraph, a: seq<Field>, b: seq<Field>)
    ensures FillParagraph(p, a + b) == FillParagraph(FillParagraph(p, a), b)
    decreases |a|
  {
    if a == [] {
      assert a + b == b;
    } else {
      assert (a + b)[1..] == a[1..] + b;
      FillParagraphConcat(FillStep(p, a[0]), a[1..], b);
    }
  }

  /** Entries none of whose placeholders occur in run `j` leave that run as it is, whatever the other runs hold. */
  lemma {:induction false} FillKeepsRun(p: Paragraph, j: nat, fields: seq<Field>)
    requires j < |p|
    requires forall k :: 0 <= k < |fields| ==> !IsSubstring(Placeholder(fields[k].key), p[j])
    ensures FillParagraph(p, fields)[j] == p[j]
    decreases |fields|
  {
    if fields != [] {
      var p' := FillStep(p, fields[0]);
      assert p'[j] == p[j];
      FillKeepsRun(p', j, fields[1..]);
    }
  }

  /** A text without braces holds no placeholder. */
  lemma NoPlaceholderInBraceFree(s: string, key: string)
    requires BraceFree(s)
    ensures !IsSubstring(Placeholder(key), s)
  {
    var pat := Placeholder(key);
    if IsSubstring(pat, s) {
      assert pat[0] == '{';
      OccurrenceChars(pat, s, '{');
    }
  }

  /** A placeholder occurs wherever it is written, between any texts. */
  lemma PlaceholderInSurrounded(a: string, key: string, b: string)
    ensures OccursAt(Placeholder(key), a + Placeholder(key) + b, |a|)
    ensures IsSubstring(Placeholder(key), a + Placeholder(key) + b)
  {
    var pat, s := Placeholder(key), a + Placeholder(key) + b;
    assert s[|a|..|a| + |pat|] == pat;
    assert OccursAt(pat, s, |a|);
    IsSubstringIff(pat, s);
  }

  /** Between brace-free texts, the placeholder of one brace-free key holds no other key's placeholder. */
  lemma OtherPlaceholderNotInSurrounded(a: string, key: string, b: string, other: string)
    requires BraceFree(a) && BraceFree(key) && BraceFree(b) && BraceFree(other) && other != key
    ensures !IsSubstring(Placeholder(other), a + Placeholder(key) + b)
  {
    var s, pk, po := a + Placeholder(key) + b, Placeholder(key), Placeholder(other);
    PlaceholderInSurrounded(a, key, b);
    PlaceholderShape(other);
    forall q | 0 <= q ensures !OccursAt(po, s, q) {
      if q < |a| {
        assert s[q + 0] == a[q];
        MismatchAt(po, s, q, 0);
      } else if q == |a| {
        AlignedPlaceholdersDiffer(key, other, s, |a|);
      } else if q < |a| + |pk| {
        ShiftedPlaceholdersDiffer(key, other, s, |a|, q);
      } else if q < |s| {
        assert s[q + 0] == b[q - |a| - |pk|];
        MismatchAt(po, s, q, 0);
      }
    }
    IsSubstringIff(po, s);
  }

  /** `str.replace` of a brace-free key's placeholder written once between brace-free texts. */
  lemma ReplaceSurrounded(a: string, key: string, b: string, v: string)
    requires BraceFree(a) && BraceFree(key) && BraceFree(b)
    ensures ReplaceAll(a + Placeholder(key) + b, Placeholder(key), v) == a + v + b
  {
    var pat, s := Placeholder(key), a + Placeholder(key) + b;
    PlaceholderShape(key);
    forall q | 0 <= q < |a| ensures !OccursAt(pat, s, q) {
      assert s[q + 0] == a[q];
      MismatchAt(pat, s, q, 0);
    }
    ReplaceAllPrefix(s, pat, v, |a|);
    var t := s[|a|..];
    assert s[..|a|] == a && t == pat + b;
    assert t[..|pat|] == pat && t[|pat|..] == b;
    NoPlaceholderInBraceFree(b, key);
  }

  /** Run `j` is part of the paragraph's text, so whatever it holds the text holds. */
  lemma {:induction false} TextHoldsRun(p: Paragraph, j: nat, pat: string)
    requires j < |p| && IsSubstring(pat, p[j])
    ensures IsSubstring(pat, Text(p))
    decreases j
  {
    if j == 0 {
      IsSubstringIff(pat, p[0]);
      var i :| OccursAt(pat, p[0], i);
      assert (p[0] + Text(p[1..]))[i..i + |pat|] == p[0][i..i + |pat|];
      assert OccursAt(pat, Text(p), i);
      IsSubstringIff(pat, Text(p));
    } else {
      TextHoldsRun(p[1..], j - 1, pat);
      IsSubstringPrepend(pat, p[0], Text(p[1..]));
    }
  }

  /** The step for an entry replaces its placeholder in run `j`, keeping the text around it. */
  lemma StepReplacesRun(p: Paragraph, j: nat, f: Field, a: string, b: string)
    requires j < |p| && p[j] == a + Placeholder(f.key) + b
    requires BraceFree(a) && BraceFree(f.key) && BraceFree(b)
    ensures FillStep(p, f)[j] == a + f.value + b
  {
    var pat := Placeholder(f.key);
    PlaceholderInSurrounded(a, f.key, b);
    TextHoldsRun(p, j, pat);
    assert FillStep(p, f) == ReplaceInRuns(p, pat, f.value);
    ReplaceSurrounded(a, f.key, b, f.value);
  }

  lemma FillParagraphCons(p: Paragraph, f: Field, rest: seq<Field>)
    ensures FillParagraph(p, [f] + rest) == FillParagraph(FillStep(p, f), rest)
  {
    assert ([f] + rest)[0] == f && ([f] + rest)[1..] == rest;
  }

  /**
   * The entry `f` between `before` and `after` replaces its placeholder in
   * run `j`: the entries before it have other keys and leave the run alone,
   * and those after it find no braces left in it.
   */
  lemma PlaceholderReplacedAmong(p: Paragraph, j: nat, a: string, b: string,
                                 before: seq<Field>, f: Field, after: seq<Field>)
    requires j < |p| && p[j] == a + Placeholder(f.key) + b
    requires BraceFree(a) && BraceFree(b) && BraceFree(f.key) && BraceFree(f.value)
    requires forall k :: 0 <= k < |before| ==> BraceFree(before[k].key) && before[k].key != f.key
    ensures FillParagraph(p, before + ([f] + after))[j] == a + f.value + b
  {
    FillParagraphConcat(p, before, [f] + after);
    forall k | 0 <= k < |before| ensures !IsSubstring(Placeholder(before[k].key), p[j]) {
      OtherPlaceholderNotInSurrounded(a, f.key, b, before[k].key);
    }
    FillKeepsRun(p, j, before);
    var p1 := FillParagraph(p, before);
    FillParagraphCons(p1, f, after);
    StepReplacesRun(p1, j, f, a, b);
    var p2 := FillStep(p1, f);
    forall k | 0 <= k < |after| ensures !IsSubstring(Placeholder(after[k].key), p2[j]) {
      NoPlaceholderInBraceFree(a + f.value + b, after[k].key);
    }
    FillKeepsRun(p2, j, after);
  }

  lemma SplitAround(fields: seq<Field>, i: nat)
    requires i < |fields|
    ensures fields == fields[..i] + ([fields[i]] + fields[i + 1..])
  {
  }

  /**
   * In any run of any paragraph, the placeholder of a dictionary key written
   * between brace-free texts becomes that entry's value, when keys are
   * distinct and brace-free and the value holds no braces.
   */
  lemma KnownPlaceholderReplaced(fields: seq<Field>, i: nat, p: Paragraph, j: nat, a: string, b: string)
    requires i < |fields| && DistinctKeys(fields)
    requires forall k :: 0 <= k < |fields| ==> BraceFree(fields[k].key)
    requires BraceFree(fields[i].value)
    requires j < |p| && p[j] == a + Placeholder(fields[i].key) + b && BraceFree(a) && BraceFree(b)
    ensures FillParagraph(p, fields)[j] == a + fields[i].value + b
  {
    var before, after := fields[..i], fields[i + 1..];
    forall k | 0 <= k < |before|
      ensures BraceFree(before[k].key) && before[k].key != fields[i].key
    {
      assert before[k] == fields[k];
    }
    PlaceholderReplacedAmong(p, j, a, b, before, fields[i], after);
    SplitAround(fields, i);
  }

  lemma SlotKeyBraceFree(s: nat, n: nat)
    requires s < 6
    ensures BraceFree(SlotKey(SlotStems[s], n))
  {
    var d := NatToString(n);
    assert '{' !in d && '}' !in d by {
      forall m | 0 <= m < |d| ensures d[m] != '{' && d[m] != '}' {
        assert IsDigit(d[m]);
      }
    }
  }

  lemma HeaderKeysBraceFree(fecha: string, u: Usuario, descripcion: Json<string>)
    ensures forall k :: 0 <= k < |HeaderFields(fecha, u, descripcion)| ==> BraceFree(HeaderFields(fecha, u, descripcion)[k].key)
  {
    var h := HeaderFields(fecha, u, descripcion);
    forall k | 0 <= k < |h| ensures BraceFree(h[k].key) {
      var key := h[k].key;
      forall m | 0 <= m < |key| ensures key[m] != '{' && key[m] != '}' {
        assert 'a' <= key[m] <= 'z' || key[m] == '_';
      }
    }
  }

  lemma SheetsKeysBraceFree(fs: seq<FichaTecnicaBody>, start: nat)
    requires forall k :: 0 <= k < |fs| ==> FichaKeysPresent(fs[k])
    ensures forall k :: 0 <= k < |Sheets(fs, start)| ==> BraceFree(Sheets(fs, start)[k].key)
  {
    var sh := Sheets(fs, start);
    SheetsLength(fs, start);
    forall k | 0 <= k < |sh| ensures BraceFree(sh[k].key) {
      SheetsKeyAt(fs, start, k);
      SlotKeyBraceFree(k % 6, start + k / 6);
    }
  }

  /** Every key of the certificate's dictionary is free of braces. */
  lemma FieldMapKeysBraceFree(fecha: string, u: Usuario, descripcion: Json<string>, fichas: seq<FichaTecnicaBody>)
    requires forall k :: 0 <= k < |fichas| ==> FichaKeysPresent(fichas[k])
    ensures var fm := FieldMap(fecha, u, descripcion, fichas);
            forall k :: 0 <= k < |fm| ==> BraceFree(fm[k].key)
  {
    var h := HeaderFields(fecha, u, descripcion);
    var sh := Sheets(fichas[..Min(3, |fichas|)], 1);
    HeaderKeysBraceFree(fecha, u, descripcion);
    SheetsKeysBraceFree(fichas[..Min(3, |fichas|)], 1);
    var fm := h + sh;
    forall k | 0 <= k < |fm| ensures BraceFree(fm[k].key) {
      if k < |h| {
        assert fm[k] == h[k];
      } else {
        assert fm[k] == sh[k - |h|];
      }
    }
  }

  /**
   * In an issued certificate, the placeholder of a dictionary key written
   * between brace-free texts in any run of any template paragraph becomes
   * that key's value, when the value holds no braces.
   */
  lemma FieldMapPlaceholderReplaced(fecha: string, u: Usuario, descripcion: Json<string>,
                                    fichas: seq<FichaTecnicaBody>, i: nat,
                                    p: Paragraph, j: nat, a: string, b: string)
    requires forall k :: 0 <= k < |fichas| ==> FichaKeysPresent(fichas[k])
    requires i < |FieldMap(fecha, u, descripcion, fichas)|
    requires BraceFree(FieldMap(fecha, u, descripcion, fichas)[i].value)
    requires j < |p| && p[j] == a + Placeholder(FieldMap(fecha, u, descripcion, fichas)[i].key) + b
    requires BraceFree(a) && BraceFree(b)
    ensures var fm := FieldMap(fecha, u, descripcion, fichas);
            FillParagraph(p, fm)[j] == a + fm[i].value + b
  {
    FieldMapDistinctKeys(fecha, u, descripcion, fichas);
    FieldMapKeysBraceFree(fecha, u, descripcion, fichas);
    KnownPlaceholderReplaced(FieldMap(fecha, u, descripcion, fichas), i, p, j, a, b);
  }
}
