/** The cafeteria editor of the admin area: a form that is opened empty (add) or filled from a row
    (edit), and a save that validates the name, derives the slug, normalises the payload and then
    updates the edited row or inserts a new one. The remote table is a map from row id to row. */
module ManageCafeterias {
  import opened Wrappers
  import Text
  import Seqs

  /** The naira sign, the default price range. */
  const Naira: string := "\U{20A6}"

  datatype CafeteriaForm = CafeteriaForm(
    name: string,
    slug: string,
    description: string,
    priceRange: string,
    deliveryTime: string,
    isOpen: bool)

  const EmptyForm: CafeteriaForm := CafeteriaForm("", "", "", Naira, "20-35 min", true)

  /** The columns of a `cafeterias` row that the editor reads and writes; the nullable ones are options. */
  datatype CafeteriaRow = CafeteriaRow(
    name: string,
    slug: Option<string>,
    description: Option<string>,
    priceRange: Option<string>,
    deliveryTime: Option<string>,
    isOpen: Option<bool>)

  // ---------------------------------------------------------------------------------------------
  // Slug generation

  /** The characters a generated slug may contain: `[a-z0-9-]`. */
  predicate IsSlugChar(c: char) {
    Text.IsLower(c) || Text.IsDigit(c) || c == '-'
  }

  predicate IsLowerAlnum(c: char) {
    Text.IsLower(c) || Text.IsDigit(c)
  }

  /** `s.replace(/\s+/g, '-')`. */
  function CollapseSpaces(s: string): (r: string)
    ensures |r| <= |s|
    ensures forall i :: 0 <= i < |r| ==> !Text.IsSpace(r[i])
    decreases |s|
  {
    if s == [] then []
    else if Text.IsSpace(s[0]) then "-" + CollapseSpaces(Text.TrimStart(s[1..]))
    else [s[0]] + CollapseSpaces(s[1..])
  }

  /** `name.toLowerCase().replace(/\s+/g, '-').replace(/[^a-z0-9-]/g, '')`. */
  function GeneratedSlug(name: string): (slug: string)
    ensures |slug| <= |name|
    ensures forall i :: 0 <= i < |slug| ==> IsSlugChar(slug[i])
  {
    var r := Seqs.Filter(CollapseSpaces(Text.Lower(name)), IsSlugChar);
    assert forall i :: 0 <= i < |r| ==> r[i] in r;
    r
  }

  /** `form.slug.trim() || <generated from the name>`. */
  function Slug(form: CafeteriaForm): (slug: string)
    ensures Text.Trim(form.slug) != "" ==> slug == Text.Trim(form.slug)
    ensures Text.Trim(form.slug) == "" ==> forall i :: 0 <= i < |slug| ==> IsSlugChar(slug[i])
  {
    var typed := Text.Trim(form.slug);
    if typed != "" then typed else GeneratedSlug(form.name)
  }

  /** An independent, one-pass reading of slug generation: a run of whitespace gives one '-', a
      character that is a slug character once lower-cased is kept lower-cased, anything else is dropped. */
  function SlugSpec(s: string): string
    decreases |s|
  {
    if s == [] then []
    else if Text.IsSpace(s[0]) then "-" + SlugSpec(Text.TrimStart(s[1..]))
    else if IsSlugChar(Text.LowerChar(s[0])) then [Text.LowerChar(s[0])] + SlugSpec(s[1..])
    else SlugSpec(s[1..])
  }

  lemma LowerCons(s: string)
    requires s != []
    ensures Text.Lower(s) == [Text.LowerChar(s[0])] + Text.Lower(s[1..])
  {
  }

  /** Lower-casing leaves whitespace alone and makes no whitespace. */
  lemma LowerCharSpace(c: char)
    ensures Text.IsSpace(Text.LowerChar(c)) == Text.IsSpace(c)
  {
    if Text.IsUpper(c) {
      assert Text.IsLower(Text.LowerChar(c));
    }
  }

  /** Lower-casing and stripping leading whitespace commute. */
  lemma {:induction false} TrimStartLower(s: string)
    ensures Text.TrimStart(Text.Lower(s)) == Text.Lower(Text.TrimStart(s))
  {
    if s != [] {
      var l := Text.Lower(s);
      LowerCons(s);
      LowerCharSpace(s[0]);
      assert l[0] == Text.LowerChar(s[0]) && l[1..] == Text.Lower(s[1..]);
      if Text.IsSpace(s[0]) {
        TrimStartLower(s[1..]);
        assert Text.TrimStart(l) == Text.TrimStart(l[1..]);
        assert Text.TrimStart(s) == Text.TrimStart(s[1..]);
      } else {
        assert Text.TrimStart(l) == l;
        assert Text.TrimStart(s) == s;
      }
    }
  }

  lemma FilterSingle(c: char, p: char -> bool)
    ensures Seqs.Filter([c], p) == if p(c) then [c] else []
  {
    assert [c][1..] == [];
  }

  lemma FilterCons(c: char, t: string, p: char -> bool)
    ensures Seqs.Filter([c] + t, p) == (if p(c) then [c] else []) + Seqs.Filter(t, p)
  {
    Seqs.FilterAppend([c], t, p);
    FilterSingle(c, p);
  }

  /** The three-stage chain computes the one-pass reading. */
  lemma {:induction false} GeneratedSlugIsSpec(s: string)
    ensures GeneratedSlug(s) == SlugSpec(s)
    decreases |s|
  {
    if s != [] {
      var l := Text.Lower(s);
      LowerCons(s);
      assert l[0] == Text.LowerChar(s[0]) && l[1..] == Text.Lower(s[1..]);
      if Text.IsSpace(s[0]) {
        var t := Text.TrimStart(s[1..]);
        TrimStartLower(s[1..]);
        assert CollapseSpaces(l) == "-" + CollapseSpaces(Text.Lower(t));
        FilterCons('-', CollapseSpaces(Text.Lower(t)), IsSlugChar);
        GeneratedSlugIsSpec(t);
      } else {
        assert CollapseSpaces(l) == [l[0]] + CollapseSpaces(Text.Lower(s[1..]));
        FilterCons(l[0], CollapseSpaces(Text.Lower(s[1..])), IsSlugChar);
        GeneratedSlugIsSpec(s[1..]);
      }
    }
  }

  /** A string of slug characters is its own slug. */
  lemma {:induction false} SlugSpecFixed(s: string)
    requires forall i :: 0 <= i < |s| ==> IsSlugChar(s[i])
    ensures SlugSpec(s) == s
  {
    if s != [] {
      assert !Text.IsSpace(s[0]) && Text.LowerChar(s[0]) == s[0];
      SlugSpecFixed(s[1..]);
    }
  }

  /** Generating a slug from a generated slug returns it unchanged. */
  lemma GeneratedSlugIdempotent(name: string)
    ensures GeneratedSlug(GeneratedSlug(name)) == GeneratedSlug(name)
  {
    GeneratedSlugIsSpec(GeneratedSlug(name));
    SlugSpecFixed(GeneratedSlug(name));
  }

  /** Whitespace contributes no letters or digits after lower-casing. */
  lemma {:induction false} LowerAlnumsSkipSpaces(s: string)
    ensures Seqs.Filter(Text.Lower(s), IsLowerAlnum) == Seqs.Filter(Text.Lower(Text.TrimStart(s)), IsLowerAlnum)
  {
    if s != [] && Text.IsSpace(s[0]) {
      LowerCons(s);
      FilterCons(Text.LowerChar(s[0]), Text.Lower(s[1..]), IsLowerAlnum);
      LowerAlnumsSkipSpaces(s[1..]);
    }
  }

  lemma SlugSpecKeep(s: string)
    requires s != [] && !Text.IsSpace(s[0]) && IsSlugChar(Text.LowerChar(s[0]))
    ensures SlugSpec(s) == [Text.LowerChar(s[0])] + SlugSpec(s[1..])
  {
  }

  lemma SlugSpecDrop(s: string)
    requires s != [] && !Text.IsSpace(s[0]) && !IsSlugChar(Text.LowerChar(s[0]))
    ensures SlugSpec(s) == SlugSpec(s[1..])
  {
  }

  lemma SlugSpecSpace(s: string)
    requires s != [] && Text.IsSpace(s[0])
    ensures SlugSpec(s) == "-" + SlugSpec(Text.TrimStart(s[1..]))
  {
  }

  /** The letters and digits of a slug and of the lower-cased name from which it was made. */
  predicate SameLettersAndDigits(s: string) {
    Seqs.Filter(SlugSpec(s), IsLowerAlnum) == Seqs.Filter(Text.Lower(s), IsLowerAlnum)
  }

  /** The first character's contribution to the letters and digits of a lower-cased name. */
  function LeadingLowerAlnum(s: string): string
    requires s != []
  {
    var c := Text.LowerChar(s[0]);
    if IsLowerAlnum(c) then [c] else []
  }

  lemma LowerAlnumsCons(s: string)
    requires s != []
    ensures Seqs.Filter(Text.Lower(s), IsLowerAlnum) == LeadingLowerAlnum(s) + Seqs.Filter(Text.Lower(s[1..]), IsLowerAlnum)
  {
    LowerCons(s);
    FilterCons(Text.LowerChar(s[0]), Text.Lower(s[1..]), IsLowerAlnum);
  }

  lemma SlugAlnumsCons(s: string)
    requires s != [] && !Text.IsSpace(s[0])
    ensures Seqs.Filter(SlugSpec(s), IsLowerAlnum) == LeadingLowerAlnum(s) + Seqs.Filter(SlugSpec(s[1..]), IsLowerAlnum)
  {
    var c := Text.LowerChar(s[0]);
    if IsSlugChar(c) {
      SlugSpecKeep(s);
      FilterCons(c, SlugSpec(s[1..]), IsLowerAlnum);
    } else {
      SlugSpecDrop(s);
    }
  }

  lemma SlugAlnumsSpace(s: string)
    requires s != [] && Text.IsSpace(s[0])
    ensures Seqs.Filter(SlugSpec(s), IsLowerAlnum) == Seqs.Filter(SlugSpec(Text.TrimStart(s[1..])), IsLowerAlnum)
    ensures LeadingLowerAlnum(s) == []
  {
    SlugSpecSpace(s);
    FilterCons('-', SlugSpec(Text.TrimStart(s[1..])), IsLowerAlnum);
    LowerCharSpace(s[0]);
  }

  lemma SlugKeepsSpaceStep(s: string)
    requires s != [] && Text.IsSpace(s[0])
    requires SameLettersAndDigits(Text.TrimStart(s[1..]))
    ensures SameLettersAndDigits(s)
  {
    LowerAlnumsCons(s);
    SlugAlnumsSpace(s);
    LowerAlnumsSkipSpaces(s[1..]);
  }

  lemma SlugKeepsOtherStep(s: string)
    requires s != [] && !Text.IsSpace(s[0])
    requires SameLettersAndDigits(s[1..])
    ensures SameLettersAndDigits(s)
  {
    LowerAlnumsCons(s);
    SlugAlnumsCons(s);
  }

  /** With the dashes taken out, a generated slug is exactly the name's letters and digits,
      lower-cased, in their original order. */
  lemma {:induction false} SlugKeepsLettersAndDigits(s: string)
    ensures Seqs.Filter(SlugSpec(s), IsLowerAlnum) == Seqs.Filter(Text.Lower(s), IsLowerAlnum)
    decreases |s|
  {
    if s == [] {
      assert SameLettersAndDigits(s);
    } else if Text.IsSpace(s[0]) {
      SlugKeepsLettersAndDigits(Text.TrimStart(s[1..]));
      SlugKeepsSpaceStep(s);
    } else {
      SlugKeepsLettersAndDigits(s[1..]);
      SlugKeepsOtherStep(s);
    }
  }

  /** A name that ends in whitespace gives a slug that ends in '-'. */
  lemma {:induction false} SlugSpecTrailingDash(s: string)
    requires s != [] && Text.IsSpace(s[|s| - 1])
    ensures SlugSpec(s) != [] && SlugSpec(s)[|SlugSpec(s)| - 1] == '-'
    decreases |s|
  {
    if Text.IsSpace(s[0]) {
      var t := Text.TrimStart(s[1..]);
      if t != [] {
        Text.TrimStartSuffix(s[1..]);
        assert t[|t| - 1] == s[|s| - 1];
        SlugSpecTrailingDash(t);
      }
    } else {
      assert s[1..][|s| - 2] == s[|s| - 1];
      SlugSpecTrailingDash(s[1..]);
    }
  }

  /** The slug is generated from the untrimmed name while the saved name is trimmed, so surrounding
      whitespace in the name shows up as a leading or trailing '-' in the slug only. */
  lemma PaddedNameGivesDashes(name: string)
    requires name != []
    ensures Text.IsSpace(name[0]) ==> GeneratedSlug(name) != [] && GeneratedSlug(name)[0] == '-'
    ensures Text.IsSpace(name[|name| - 1]) ==>
      GeneratedSlug(name) != [] && GeneratedSlug(name)[|GeneratedSlug(name)| - 1] == '-'
  {
    GeneratedSlugIsSpec(name);
    if Text.IsSpace(name[|name| - 1]) {
      SlugSpecTrailingDash(name);
    }
  }

  lemma SlugSpecExampleTail(b: char)
    requires Text.IsLower(b)
    ensures SlugSpec([' ', b, '!']) == ['-', b]
  {
    assert SlugSpec([b, '!']) == [b] by {
      SlugSpecDrop(['!']);
      assert ['!'][1..] == [];
      SlugSpecKeep([b, '!']);
      assert [b, '!'][1..] == ['!'];
    }
    assert Text.TrimStart([b, '!']) == [b, '!'];
    SlugSpecSpace([' ', b, '!']);
    assert [' ', b, '!'][1..] == [b, '!'];
  }

  lemma SlugSpecExample(a: char, b: char)
    requires Text.IsUpper(a) && Text.IsLower(b)
    ensures SlugSpec([a, ' ', b, '!']) == [Text.LowerChar(a), '-', b]
  {
    var t := [' ', b, '!'];
    assert SlugSpec([a, ' ', b, '!']) == [Text.LowerChar(a)] + SlugSpec(t) by {
      assert Text.IsLower(Text.LowerChar(a)) && !Text.IsSpace(a);
      SlugSpecKeep([a, ' ', b, '!']);
      assert [a, ' ', b, '!'][1..] == t;
    }
    assert SlugSpec(t) == ['-', b] by {
      SlugSpecExampleTail(b);
    }
    assert [Text.LowerChar(a)] + ['-', b] == [Text.LowerChar(a), '-', b];
  }

  /** An example of the shape "A b!": the space becomes a dash, the capital is lower-cased and the
      '!' is dropped. */
  lemma SlugExample(a: char, b: char)
    requires Text.IsUpper(a) && Text.IsLower(b)
    ensures GeneratedSlug([a, ' ', b, '!']) == [Text.LowerChar(a), '-', b]
  {
    SlugSpecExample(a, b);
    GeneratedSlugIsSpec([a, ' ', b, '!']);
  }

  // ---------------------------------------------------------------------------------------------
  // Payload

  /** The row written by `handleSave`: trimmed name, derived slug, trimmed description or null. */
  function Payload(form: CafeteriaForm): (row: CafeteriaRow)
    ensures row.name == Text.Trim(form.name) && row.slug == Some(Slug(form))
    ensures row.description.None? <==> forall i :: 0 <= i < |form.description| ==> Text.IsSpace(form.description[i])
    ensures row.description.Some? ==>
      && row.description.value == Text.Trim(form.description) && row.description.value != ""
      && !Text.IsSpace(row.description.value[0])
    ensures row.priceRange == Some(form.priceRange) && row.deliveryTime == Some(form.deliveryTime)
    ensures row.isOpen == Some(form.isOpen)
  {
    Text.TrimEmptyIff(form.description);
    var d := Text.Trim(form.description);
    CafeteriaRow(Text.Trim(form.name), Some(Slug(form)), if d == "" then None else Some(d),
                 Some(form.priceRange), Some(form.deliveryTime), Some(form.isOpen))
  }

  /** `openEdit`: the form filled from a row, with the defaults for missing columns. */
  function FormOf(row: CafeteriaRow): CafeteriaForm {
    CafeteriaForm(
      row.name,
      row.slug.GetOr(""),
      row.description.GetOr(""),
      if row.priceRange.GetOr("") == "" then Naira else row.priceRange.value,
      if row.deliveryTime.GetOr("") == "" then "20-35 min" else row.deliveryTime.value,
      row.isOpen.GetOr(true))
  }

  /** A row as the editor itself writes it. */
  predicate Normalised(row: CafeteriaRow) {
    && row.name != "" && Text.Trim(row.name) == row.name
    && row.slug.Some? && row.slug.value != "" && Text.Trim(row.slug.value) == row.slug.value
    && (row.description.Some? ==> row.description.value != "" && Text.Trim(row.description.value) == row.description.value)
    && row.priceRange.Some? && row.priceRange.value != ""
    && row.deliveryTime.Some? && row.deliveryTime.value != ""
    && row.isOpen.Some?
  }

  /** Opening a normalised row for editing and saving it unchanged writes back the same row. */
  lemma EditRoundTrip(row: CafeteriaRow)
    requires Normalised(row)
    ensures Payload(FormOf(row)) == row
  {
    var f := FormOf(row);
    if row.description.None? {
      assert f.description == "";
      Text.TrimEmptyIff("");
    }
  }

  // ---------------------------------------------------------------------------------------------
  // The editor

  datatype SaveOutcome = NameRequired | Failed | Updated(id: string) | Inserted(id: string)

  datatype SaveResult = SaveResult(outcome: SaveOutcome, rows: map<string, CafeteriaRow>)

  /** The remote write of `handleSave` for a given payload: a truthy `editingId` updates that row (no
      row changes when the id is unknown), otherwise a new row is inserted under `freshId`, the id the
      database gives it. `fails` says whether the write reports an error, which leaves the table as it
      was. */
  function Write(payload: CafeteriaRow, editingId: Option<string>, rows: map<string, CafeteriaRow>,
                 freshId: string, fails: bool): (r: SaveResult)
    requires freshId !in rows
    ensures r.outcome != NameRequired
    ensures r.outcome == Failed <==> fails
  {
    if fails then SaveResult(Failed, rows)
    else if editingId.Some? && editingId.value != "" then
      SaveResult(Updated(editingId.value),
                 if editingId.value in rows then rows[editingId.value := payload] else rows)
    else SaveResult(Inserted(freshId), rows[freshId := payload])
  }

  /** What a write does to the table: a failed write changes nothing; a truthy `editingId` updates
      that row, and only when it exists; otherwise the payload is inserted under the fresh id. */
  lemma WriteTable(payload: CafeteriaRow, editingId: Option<string>, rows: map<string, CafeteriaRow>,
                   freshId: string, fails: bool)
    requires freshId !in rows
    ensures var r := Write(payload, editingId, rows, freshId, fails);
      && (r.outcome == Failed ==> r.rows == rows)
      && (r.outcome.Updated? ==>
            && editingId == Some(r.outcome.id) && r.outcome.id != ""
            && r.rows == (if r.outcome.id in rows then rows[r.outcome.id := payload] else rows))
      && (r.outcome.Inserted? ==>
            && (editingId.None? || editingId == Some(""))
            && r.outcome.id == freshId && r.rows == rows[freshId := payload])
      && (!fails ==> (r.outcome.Updated? <==> editingId.Some? && editingId.value != ""))
  {
  }

  /** A write touches at most one row: the edited row or the new one, which then holds the payload. */
  lemma WriteChangesOneRow(payload: CafeteriaRow, editingId: Option<string>,
                           rows: map<string, CafeteriaRow>, freshId: string, fails: bool)
    requires freshId !in rows
    ensures var r := Write(payload, editingId, rows, freshId, fails);
      && rows.Keys <= r.rows.Keys
      && (forall id :: id in r.rows && (id !in rows || r.rows[id] != rows[id]) ==>
            r.rows[id] == payload && (editingId == Some(id) || id == freshId))
  {
  }

  /** `handleSave` on the table: a blank name is refused before anything is written; otherwise the
      payload of the form is written. */
  function Save(form: CafeteriaForm, editingId: Option<string>, rows: map<string, CafeteriaRow>,
                freshId: string, fails: bool): (r: SaveResult)
    requires freshId !in rows
    ensures Text.Trim(form.name) == "" ==> r == SaveResult(NameRequired, rows)
    ensures Text.Trim(form.name) != "" ==> r.outcome != NameRequired
  {
    if Text.Trim(form.name) == "" then SaveResult(NameRequired, rows)
    else Write(Payload(form), editingId, rows, freshId, fails)
  }

  /** A blank name writes nothing. A name that is not blank writes the form's payload, whose name is
      non-blank and trimmed, to at most one row: the edited one or the new one. */
  lemma SaveWritesTrimmedRows(form: CafeteriaForm, editingId: Option<string>,
                              rows: map<string, CafeteriaRow>, freshId: string, fails: bool)
    requires freshId !in rows
    ensures var r := Save(form, editingId, rows, freshId, fails);
      && rows.Keys <= r.rows.Keys
      && forall id :: id in r.rows && (id !in rows || r.rows[id] != rows[id]) ==>
        && r.rows[id] == Payload(form) && (editingId == Some(id) || id == freshId)
        && r.rows[id].name != "" && Text.Trim(r.rows[id].name) == r.rows[id].name
  {
    if Text.Trim(form.name) != "" {
      WriteChangesOneRow(Payload(form), editingId, rows, freshId, fails);
      PayloadNameTrimmed(form);
    }
  }

  /** The saved name of a form whose name is not blank is itself non-blank and trimmed. */
  lemma PayloadNameTrimmed(form: CafeteriaForm)
    requires Text.Trim(form.name) != ""
    ensures Payload(form).name != "" && Text.Trim(Payload(form).name) == Payload(form).name
  {
    Text.TrimIdempotent(form.name);
  }

  class CafeteriaEditor {
    var form: CafeteriaForm
    var editingId: Option<string>
    var showForm: bool
    var saving: bool
    /** The `cafeterias` table, by row id. */
    var rows: map<string, CafeteriaRow>

    constructor (table: map<string, CafeteriaRow>)
      ensures form == EmptyForm && editingId == None && !showForm && !saving && rows == table
    {
      form := EmptyForm;
      editingId := None;
      showForm := false;
      saving := false;
      rows := table;
    }

    /** `openAdd`. */
    method OpenAdd()
      modifies this
      ensures form == EmptyForm && editingId == None && showForm
      ensures saving == old(saving) && rows == old(rows)
    {
      form := EmptyForm;
      editingId := None;
      showForm := true;
    }

    /** `openEdit` for the row `id`. */
    method OpenEdit(id: string)
      requires id in rows
      modifies this
      ensures form == FormOf(old(rows)[id]) && editingId == Some(id) && showForm
      ensures saving == old(saving) && rows == old(rows)
    {
      form := FormOf(rows[id]);
      editingId := Some(id);
      showForm := true;
    }

    /** `handleSave`: the table changes as `Save` says; unless the name was refused, the form closes
        and the saving flag is back to false. The form and the edited id are left as they were. */
    method HandleSave(freshId: string, fails: bool) returns (outcome: SaveOutcome)
      requires freshId !in rows
      modifies this
      ensures form == old(form) && editingId == old(editingId)
      ensures outcome == Save(form, editingId, old(rows), freshId, fails).outcome
      ensures rows == Save(form, editingId, old(rows), freshId, fails).rows
      ensures outcome == NameRequired ==> showForm == old(showForm) && saving == old(saving)
      ensures outcome != NameRequired ==> !saving && !showForm
    {
      var r := Save(form, editingId, rows, freshId, fails);
      outcome := r.outcome;
      // A refused save leaves the table as it was: `Save` hands it back unchanged.
      rows := r.rows;
      if outcome != NameRequired {
        // `saving` is raised for the remote write and lowered after it; the form then closes.
        saving := false;
        showForm := false;
      }
    }
  }
}
