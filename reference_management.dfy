/** Maintenance of the reference lists (hooks/useReferenceManagement.ts): searching a
    category's rows, normalising what is typed, rejecting duplicates and submitting
    an added or edited row. The category table is utils/referenceConfig.ts; the
    metadata service call and its outcome are parameters of the submit step. */
module ReferenceManagement {
  import opened Js
  import Text
  import Seqs

  /** `CategoryKey`. */
  datatype Category = LoaiNhap | KienGiay | LoaiGiay | Ncc | Nsx

  /** The three columns of a reference row. */
  datatype FieldKey = ValueKey | CodeKey | ExtraKey

  datatype Field = Field(key: FieldKey, caption: string)

  /** A metadata row: `row[0]` the value, `row[1]` the code, `row[2]` the extra
      column; a short row lacks the later ones. */
  type Row = seq<string>

  /** The form fields of each category, in order. */
  function Fields(c: Category): seq<Field>
  {
    match c
    case LoaiNhap => [Field(ValueKey, "Tên Mục Đích"), Field(CodeKey, "Mã Viết Tắt")]
    case KienGiay => [Field(ValueKey, "Tên Kiện"), Field(CodeKey, "Mã Kiện")]
    case LoaiGiay => [Field(ValueKey, "Tên Loại Giấy"), Field(CodeKey, "Mã Loại")]
    case Ncc => [Field(ValueKey, "Mã NCC"), Field(CodeKey, "Tên Nhà Cung Cấp"), Field(ExtraKey, "Tên Ngắn")]
    case Nsx => [Field(ValueKey, "Tên Nhà Sản Xuất")]
  }

  /** `metaData ? metaData[selectedCategory] : []`; `None` when the loaded
      metadata has no list for the category. */
  function CurrentData(metaData: Option<map<Category, seq<Row>>>, c: Category): (r: Option<seq<Row>>)
    ensures metaData.None? ==> r == Some([])
    ensures metaData.Some? ==> (r.Some? <==> c in metaData.value)
    ensures metaData.Some? && c in metaData.value ==> r == Some(metaData.value[c])
  {
    match metaData
    case None => Some([])
    case Some(m) => if c in m then Some(m[c]) else None
  }

  /** `row[i] || ''`. */
  function Cell(row: Row, i: nat): string
  {
    if i < |row| then row[i] else ""
  }

  /** `row[0]`, which is `undefined` on an empty row. */
  function FirstCell(row: Row): Option<string>
  {
    if |row| > 0 then Some(row[0]) else None
  }

  // ---------------------------------------------------------------- search

  /** The search keeps a row when the lower-cased term occurs in one of its
      lower-cased first three cells. */
  predicate Matches(lib: Lib, term: string, row: Row)
  {
    var t := lib.lower(term);
    Text.Contains(lib.lower(Cell(row, 0)), t)
    || Text.Contains(lib.lower(Cell(row, 1)), t)
    || Text.Contains(lib.lower(Cell(row, 2)), t)
  }

  function MatchesTerm(lib: Lib, term: string): Row -> bool
  {
    row => Matches(lib, term, row)
  }

  /** `filteredData`. */
  function FilteredData(lib: Lib, data: Option<seq<Row>>, term: string): (r: seq<Row>)
    ensures data.None? ==> r == []
    ensures forall row :: row in r ==> data.Some? && row in data.value && Matches(lib, term, row)
    ensures data.Some? ==>
      forall i :: 0 <= i < |data.value| && Matches(lib, term, data.value[i]) ==> data.value[i] in r
  {
    match data
    case None => []
    case Some(rows) => Seqs.Filter(rows, MatchesTerm(lib, term))
  }

  /** The search keeps the order of the rows. */
  lemma FilteredDataKeepsOrder(lib: Lib, rows: seq<Row>, term: string)
    ensures Seqs.IsSubseq(FilteredData(lib, Some(rows), term), rows)
  {
    Seqs.FilterIsSubseq(rows, MatchesTerm(lib, term));
  }

  /** An empty search term (which lower-cases to itself) keeps every row. */
  lemma EmptyTermKeepsAll(lib: Lib, rows: seq<Row>)
    requires lib.lower("") == ""
    ensures FilteredData(lib, Some(rows), "") == rows
  {
    forall i | 0 <= i < |rows|
      ensures MatchesTerm(lib, "")(rows[i])
    {
      Text.ContainsEmpty(lib.lower(Cell(rows[i], 0)));
    }
    Seqs.FilterAll(rows, MatchesTerm(lib, ""));
  }

  // ---------------------------------------------------------------- typing

  predicate IsAscii(c: char)
  {
    c as int < 0x80
  }

  /** `handleInputChange`'s value: verbatim for suppliers; upper-cased otherwise,
      and for a strict code field with every non-ASCII character removed. */
  function InputValue(lib: Lib, c: Category, value: string, strict: bool): (r: string)
    ensures c == Ncc ==> r == value
    ensures c != Ncc && !strict ==> r == lib.upper(value)
    ensures c != Ncc && strict ==> r == Text.KeepChars(lib.upper(value), IsAscii)
    ensures c != Ncc && strict ==> forall i :: 0 <= i < |r| ==> IsAscii(r[i])
  {
    if c == Ncc then value
    else if strict then Text.KeepChars(lib.upper(value), IsAscii)
    else lib.upper(value)
  }

  /** A strict code that is already upper-case ASCII is kept as it is, so a field
      that re-renders with its own value does not change. */
  lemma StrictInputStable(lib: Lib, c: Category, code: string)
    requires c != Ncc
    requires lib.upper(code) == code
    requires forall i :: 0 <= i < |code| ==> IsAscii(code[i])
    ensures InputValue(lib, c, code, true) == code
  {
    Text.KeepCharsAll(code, IsAscii);
  }

  // ---------------------------------------------------------------- duplicates

  /** The comparison key: trimmed, then lower-cased. */
  function Normal(lib: Lib, s: string): string
  {
    lib.lower(Text.Trim(s))
  }

  /** While editing, the edited row (found by its first cell) is not compared. */
  predicate Skipped(isEditing: bool, editingId: Option<string>, row: Row)
  {
    isEditing && FirstCell(row) == editingId
  }

  /** Some compared row has the value in column `col`. */
  predicate Duplicated(lib: Lib, rows: seq<Row>, isEditing: bool, editingId: Option<string>, col: nat, value: string)
  {
    exists i :: 0 <= i < |rows| && !Skipped(isEditing, editingId, rows[i])
      && Normal(lib, Cell(rows[i], col)) == Normal(lib, value)
  }

  /** The error `checkColumn` reports. */
  datatype DuplicateError = DuplicateError(value: string, fieldName: string)

  /** `checkColumn`. */
  function CheckColumn(lib: Lib, rows: seq<Row>, isEditing: bool, editingId: Option<string>,
                       col: nat, value: string, fieldName: string): (r: Option<DuplicateError>)
    ensures value == "" ==> r == None
    ensures r.Some? ==> r.value == DuplicateError(value, fieldName)
    ensures r.Some? <==> value != "" && Duplicated(lib, rows, isEditing, editingId, col, value)
  {
    if value == "" then None
    else if Duplicated(lib, rows, isEditing, editingId, col, value) then Some(DuplicateError(value, fieldName))
    else None
  }

  predicate HasField(fields: seq<Field>, key: FieldKey)
  {
    exists i :: 0 <= i < |fields| && fields[i].key == key
  }

  /** `fields.find(f => f.key === key)?.label || fallback`. */
  function LabelOf(fields: seq<Field>, key: FieldKey, fallback: string): (r: string)
    ensures r == fallback || exists i :: 0 <= i < |fields| && fields[i].key == key && fields[i].caption == r
  {
    if |fields| == 0 then fallback
    else if fields[0].key == key then (if fields[0].caption != "" then fields[0].caption else fallback)
    else LabelOf(fields[1..], key, fallback)
  }

  function Column(key: FieldKey): nat
  {
    match key
    case ValueKey => 0
    case CodeKey => 1
    case ExtraKey => 2
  }

  /** The form's text for a field. */
  datatype Form = Form(value: string, code: string, extra: string)

  function FormText(form: Form, key: FieldKey): string
  {
    match key
    case ValueKey => form.value
    case CodeKey => form.code
    case ExtraKey => form.extra
  }

  function Fallback(key: FieldKey): string
  {
    match key
    case ValueKey => "Cột 1"
    case CodeKey => "Cột 2"
    case ExtraKey => "Cột 3"
  }

  /** The check of one field, when the category has it. */
  function CheckField(lib: Lib, rows: seq<Row>, fields: seq<Field>, isEditing: bool, editingId: Option<string>,
                      form: Form, key: FieldKey): Option<DuplicateError>
  {
    if HasField(fields, key) then
      CheckColumn(lib, rows, isEditing, editingId, Column(key), FormText(form, key), LabelOf(fields, key, Fallback(key)))
    else None
  }

  /** `validateDuplicate`: the first of value, code and extra that duplicates a row. */
  function ValidateDuplicate(lib: Lib, data: Option<seq<Row>>, fields: seq<Field>, isEditing: bool,
                             editingId: Option<string>, form: Form): (r: Option<DuplicateError>)
  {
    if data.None? then None
    else
      var v := CheckField(lib, data.value, fields, isEditing, editingId, form, ValueKey);
      var c := CheckField(lib, data.value, fields, isEditing, editingId, form, CodeKey);
      var e := CheckField(lib, data.value, fields, isEditing, editingId, form, ExtraKey);
      if v.Some? then v else if c.Some? then c else e
  }

  /** A field of the category whose text is non-empty and equals, after trimming
      and lower-casing, the same column of a row other than the edited one. */
  predicate Clashes(lib: Lib, rows: seq<Row>, fields: seq<Field>, isEditing: bool, editingId: Option<string>,
                    form: Form, key: FieldKey)
  {
    HasField(fields, key) && FormText(form, key) != ""
    && Duplicated(lib, rows, isEditing, editingId, Column(key), FormText(form, key))
  }

  /** A duplicate is reported exactly when some field clashes, and what is
      reported is the first clashing field in the order value, code, extra. */
  lemma ValidateDuplicateReportsFirstClash(lib: Lib, rows: seq<Row>, fields: seq<Field>, isEditing: bool,
                                           editingId: Option<string>, form: Form)
    ensures var r := ValidateDuplicate(lib, Some(rows), fields, isEditing, editingId, form);
      (r.Some? <==> exists key :: Clashes(lib, rows, fields, isEditing, editingId, form, key))
      && (Clashes(lib, rows, fields, isEditing, editingId, form, ValueKey) ==>
            r == Some(DuplicateError(form.value, LabelOf(fields, ValueKey, "Cột 1"))))
      && (!Clashes(lib, rows, fields, isEditing, editingId, form, ValueKey)
          && Clashes(lib, rows, fields, isEditing, editingId, form, CodeKey) ==>
            r == Some(DuplicateError(form.code, LabelOf(fields, CodeKey, "Cột 2"))))
      && (!Clashes(lib, rows, fields, isEditing, editingId, form, ValueKey)
          && !Clashes(lib, rows, fields, isEditing, editingId, form, CodeKey)
          && Clashes(lib, rows, fields, isEditing, editingId, form, ExtraKey) ==>
            r == Some(DuplicateError(form.extra, LabelOf(fields, ExtraKey, "Cột 3"))))
  {
    var r := ValidateDuplicate(lib, Some(rows), fields, isEditing, editingId, form);
    if r.Some? {
      var v := CheckField(lib, rows, fields, isEditing, editingId, form, ValueKey);
      var c := CheckField(lib, rows, fields, isEditing, editingId, form, CodeKey);
      if v.Some? {
        assert Clashes(lib, rows, fields, isEditing, editingId, form, ValueKey);
      } else if c.Some? {
        assert Clashes(lib, rows, fields, isEditing, editingId, form, CodeKey);
      } else {
        assert Clashes(lib, rows, fields, isEditing, editingId, form, ExtraKey);
      }
    }
  }

  /** While editing, the edited row never counts as a duplicate of itself. */
  lemma EditedRowIsNoDuplicate(lib: Lib, row: Row, fields: seq<Field>, form: Form)
    ensures ValidateDuplicate(lib, Some([row]), fields, true, FirstCell(row), form) == None
  {
  }

  /** Without editing, a row's own first cell, re-entered with different spacing
      or case, is a duplicate in every category that has a value field (all of
      them do). */
  lemma SameValueIsDuplicate(lib: Lib, fields: seq<Field>, row: Row, form: Form)
    requires HasField(fields, ValueKey)
    requires |row| > 0 && form.value != ""
    requires Normal(lib, form.value) == Normal(lib, row[0])
    ensures ValidateDuplicate(lib, Some([row]), fields, false, None, form)
      == Some(DuplicateError(form.value, LabelOf(fields, ValueKey, "Cột 1")))
  {
    assert Duplicated(lib, [row], false, None, 0, form.value) by {
      assert Cell([row][0], 0) == row[0];
    }
  }

  lemma EveryCategoryHasValue(c: Category)
    ensures HasField(Fields(c), ValueKey)
  {
    assert Fields(c)[0].key == ValueKey;
  }

  // ---------------------------------------------------------------- the form

  datatype ToastKind = Success | Warning | Failure

  datatype Toast =
    | MissingInput                          // 'Vui lòng nhập thông tin'
    | Duplicate(error: DuplicateError)
    | Updated                               // 'Đã cập nhật thành công'
    | Added                                 // 'Đã thêm mới thành công'
    | OperationFailed(message: string)      // 'Lỗi thao tác: ' + message

  /** `InventoryService.updateMetaData`'s call. */
  datatype MetaCall =
    | AddRow(category: Category, value: string, code: string, extra: string)
    | UpdateRow(category: Category, value: string, code: string, extra: string, originalValue: Option<string>)

  const EmptyForm := Form("", "", "")

  class ReferenceManagementState {
    var selectedCategory: Category
    var searchTerm: string
    var form: Form
    var isEditing: bool
    var editingId: Option<string>
    var isSubmitting: bool
    var toasts: seq<Toast>
    var calls: seq<MetaCall>
    var invalidations: nat

    constructor()
      ensures selectedCategory == LoaiNhap && searchTerm == "" && form == EmptyForm
      ensures !isEditing && editingId == Some("") && !isSubmitting
      ensures toasts == [] && calls == [] && invalidations == 0
    {
      selectedCategory := LoaiNhap;
      searchTerm := "";
      form := EmptyForm;
      isEditing := false;
      editingId := Some("");
      isSubmitting := false;
      toasts := [];
      calls := [];
      invalidations := 0;
    }

    /** `setSelectedCategory`: the form is kept as it is. */
    method SelectCategory(c: Category)
      modifies this
      ensures selectedCategory == c
      ensures form == old(form) && isEditing == old(isEditing) && editingId == old(editingId)
      ensures searchTerm == old(searchTerm) && toasts == old(toasts) && calls == old(calls)
    {
      selectedCategory := c;
    }

    /** `handleResetForm`. */
    method ResetForm()
      modifies this
      ensures form == EmptyForm && !isEditing && editingId == Some("")
      ensures selectedCategory == old(selectedCategory) && searchTerm == old(searchTerm)
      ensures toasts == old(toasts) && calls == old(calls) && invalidations == old(invalidations)
      ensures isSubmitting == old(isSubmitting)
    {
      form := EmptyForm;
      isEditing := false;
      editingId := Some("");
    }

    /** `handleEdit`: the row's cells fill the form and its first cell is the id. */
    method Edit(row: Row)
      modifies this
      ensures form == Form(Cell(row, 0), Cell(row, 1), Cell(row, 2))
      ensures isEditing && editingId == FirstCell(row)
      ensures selectedCategory == old(selectedCategory) && searchTerm == old(searchTerm)
      ensures toasts == old(toasts) && calls == old(calls) && invalidations == old(invalidations)
      ensures isSubmitting == old(isSubmitting)
    {
      form := Form(Cell(row, 0), Cell(row, 1), Cell(row, 2));
      editingId := FirstCell(row);
      isEditing := true;
    }

    /** `handleInputChange` with the setter of field `key`. */
    method InputChange(lib: Lib, key: FieldKey, value: string, strict: bool)
      modifies this
      ensures FormText(form, key) == InputValue(lib, selectedCategory, value, strict)
      ensures forall k :: k != key ==> FormText(form, k) == FormText(old(form), k)
      ensures selectedCategory == old(selectedCategory) && isEditing == old(isEditing)
      ensures editingId == old(editingId) && toasts == old(toasts) && calls == old(calls)
      ensures invalidations == old(invalidations) && isSubmitting == old(isSubmitting)
    {
      var v := InputValue(lib, selectedCategory, value, strict);
      match key
      case ValueKey => form := form.(value := v);
      case CodeKey => form := form.(code := v);
      case ExtraKey => form := form.(extra := v);
    }

    /** `handleSubmit`, with `data` the category's rows and `failure` the error the
        service call throws, if any. A blank new value and a duplicate stop before
        the call; a successful call resets the form and refetches the metadata. */
    method Submit(lib: Lib, data: Option<seq<Row>>, failure: Option<string>)
      modifies this
      ensures !isSubmitting
      ensures selectedCategory == old(selectedCategory) && searchTerm == old(searchTerm)
      ensures !old(isEditing) && Text.Trim(old(form).value) == "" ==>
        calls == old(calls) && toasts == old(toasts) + [MissingInput]
        && form == old(form) && isEditing == old(isEditing) && invalidations == old(invalidations)
      ensures var err := ValidateDuplicate(lib, data, Fields(old(selectedCategory)), old(isEditing), old(editingId), old(form));
        (old(isEditing) || Text.Trim(old(form).value) != "") && err.Some? ==>
          calls == old(calls) && toasts == old(toasts) + [Duplicate(err.value)]
          && form == old(form) && isEditing == old(isEditing) && invalidations == old(invalidations)
      ensures var err := ValidateDuplicate(lib, data, Fields(old(selectedCategory)), old(isEditing), old(editingId), old(form));
        (old(isEditing) || Text.Trim(old(form).value) != "") && err.None? ==>
          calls == old(calls) + [Request(old(selectedCategory), old(isEditing), old(form), old(editingId))]
          && (failure.None? ==>
                toasts == old(toasts) + [if old(isEditing) then Updated else Added]
                && form == EmptyForm && !isEditing && invalidations == old(invalidations) + 1)
          && (failure.Some? ==>
                toasts == old(toasts) + [OperationFailed(failure.value)]
                && form == old(form) && isEditing == old(isEditing) && invalidations == old(invalidations))
    {
      if !isEditing && Text.Trim(form.value) == "" {
        toasts := toasts + [MissingInput];
        isSubmitting := false;
        return;
      }
      var err := ValidateDuplicate(lib, data, Fields(selectedCategory), isEditing, editingId, form);
      if err.Some? {
        toasts := toasts + [Duplicate(err.value)];
        isSubmitting := false;
        return;
      }
      isSubmitting := true;
      calls := calls + [Request(selectedCategory, isEditing, form, editingId)];
      if failure.None? {
        toasts := toasts + [if isEditing then Updated else Added];
        ResetForm();
        invalidations := invalidations + 1;
      } else {
        toasts := toasts + [OperationFailed(failure.value)];
      }
      isSubmitting := false;
    }
  }

  /** The call a submit makes: an update names the row by its original value. */
  function Request(c: Category, isEditing: bool, form: Form, editingId: Option<string>): (r: MetaCall)
    ensures r.UpdateRow? <==> isEditing
    ensures r.category == c && r.value == form.value && r.code == form.code && r.extra == form.extra
  {
    if isEditing then UpdateRow(c, form.value, form.code, form.extra, editingId)
    else AddRow(c, form.value, form.code, form.extra)
  }

  /** Re-submitting an edit unchanged is accepted: editing a row and submitting it
      as loaded calls the service, whatever the row holds. */
  method EditThenSubmitCallsService(lib: Lib, row: Row, c: Category) returns (calls: seq<MetaCall>)
    ensures calls == [UpdateRow(c, Cell(row, 0), Cell(row, 1), Cell(row, 2), FirstCell(row))]
  {
    var s := new ReferenceManagementState();
    s.SelectCategory(c);
    s.Edit(row);
    EditedRowIsNoDuplicate(lib, row, Fields(c), s.form);
    s.Submit(lib, Some([row]), None);
    calls := s.calls;
  }
}
