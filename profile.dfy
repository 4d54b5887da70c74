/**
 * The profile page: the skills list derived from the fetched user, the branch that
 * renders it, the `Field` fallback, the empty case of `formatDate`, and the edit form
 * that writes one key of `editData` per keystroke.
 */
module Profile {
  import opened Wrappers
  import opened Seqs
  import opened JsStrings
  import Json

  /** A property value of the user object the server returns. */
  datatype JsValue = Str(s: string) | StrArray(items: seq<string>)

  /** The user object: its keys are the server's (`passing_year`, `last_company`, ...). */
  type User = map<string, JsValue>

  /** The separators of the skills text: comma and line feed. */
  const SkillSeparators: set<char> := {',', '\n'}

  // ---------------------------------------------------------------- skills

  /** The `skills` memo: always an array, empty for a missing user or a missing or empty value. */
  function ParseSkills(user: Option<User>): (r: seq<string>)
    ensures forall i :: 0 <= i < |r| ==> r[i] != ""
    ensures user.None? || "skills" !in user.value || user.value["skills"] == Str("") || user.value["skills"] == StrArray([]) ==> r == []
  {
    if user.None? || "skills" !in user.value then []
    else
      match user.value["skills"]
      case Str(s) => if s == "" then [] else SplitItems(s, SkillSeparators)
      case StrArray(items) => DropEmpty(items)
  }

  /** A skills text gives items that are non-empty, trimmed, and free of commas and line feeds. */
  lemma TextSkillsAreClean(user: User, s: string)
    requires "skills" in user && user["skills"] == Str(s)
    ensures forall i :: 0 <= i < |ParseSkills(Some(user))| ==> IsCleanItem(ParseSkills(Some(user))[i], SkillSeparators)
  {
  }

  /** A skills array keeps its order and loses exactly its empty strings: every other item stays, as often as it occurs. */
  lemma ArraySkillsKeepOrder(user: User, items: seq<string>)
    requires "skills" in user && user["skills"] == StrArray(items)
    ensures IsSubsequence(ParseSkills(Some(user)), items)
    ensures forall x :: x in ParseSkills(Some(user)) <==> x in items && x != ""
    ensures multiset(ParseSkills(Some(user))) == multiset(items)["" := 0]
  {
    FilterIsSubsequence(IsNonEmpty, items);
    forall x ensures x in ParseSkills(Some(user)) <==> x in items && x != "" {
      FilterMembers(IsNonEmpty, items, x);
    }
    forall x ensures multiset(ParseSkills(Some(user)))[x] == multiset(items)["" := 0][x] {
      FilterCount(IsNonEmpty, items, x);
    }
  }

  /** Clean items written one per line, or separated by commas, are read back as written. */
  lemma SkillsTextRoundTrip(user: User, items: seq<string>, sep: char)
    requires sep in SkillSeparators
    requires forall i :: 0 <= i < |items| ==> IsCleanItem(items[i], SkillSeparators)
    requires "skills" in user && user["skills"] == Str(Join(items, sep))
    ensures ParseSkills(Some(user)) == items
  {
    SplitItemsOfJoin(items, sep, SkillSeparators);
  }

  /**
   * A skills value stored as the JSON text the registration form sends is split on its
   * commas, so the brackets and quotes stay in the items. The two items are parameters
   * pinned by `requires`: written as literals into the `ensures`, they are unfolded
   * character by character and the proof exceeds the resource limit.
   */
  lemma JsonSkillsTextIsSplitOnCommas(user: User, first: string, second: string)
    requires first == "[\"Java\"" && second == "\"JS\"]"
    requires "skills" in user && user["skills"] == Str(first + [','] + second)
    ensures ParseSkills(Some(user)) == [first, second]
  {
    var items := [first, second];
    assert items[1..] == [second];
    assert Join(items, ',') == first + [','] + second;
    assert IsCleanItem(first, SkillSeparators);
    assert IsCleanItem(second, SkillSeparators);
    SplitItemsOfJoin(items, ',', SkillSeparators);
  }

  /** The value the render block branches on: the memo's result, or (never produced) a text. */
  datatype MemoValue = MemoArray(items: seq<string>) | MemoText(text: string)

  /** `parsedSkills`: an array is used as it is; a text goes through `JSON.parse`, and a failed parse gives []. */
  function ParsedSkills(memo: MemoValue): (r: seq<string>)
    ensures memo.MemoArray? ==> r == memo.items
    ensures memo.MemoText? && Json.ParseArray(memo.text).None? ==> r == []
  {
    match memo
    case MemoArray(items) => items
    case MemoText(text) =>
      match Json.ParseArray(text)
      case Some(items) => items
      case None => []
  }

  /** What the skills card shows. */
  datatype SkillsPanel = Chips(items: seq<string>) | NoSkills

  function RenderSkills(memo: MemoValue): (p: SkillsPanel)
    ensures p.NoSkills? <==> ParsedSkills(memo) == []
    ensures p.Chips? ==> p.items == ParsedSkills(memo)
  {
    var parsed := ParsedSkills(memo);
    if |parsed| > 0 then Chips(parsed) else NoSkills
  }

  /**
   * The memo always yields an array, so the card shows exactly the memo's items, each
   * one non-empty, and "No skills added." exactly when there are none.
   */
  lemma RenderTakesArrayBranch(user: Option<User>)
    ensures RenderSkills(MemoArray(ParseSkills(user))) ==
            if ParseSkills(user) == [] then NoSkills else Chips(ParseSkills(user))
    ensures forall i :: 0 <= i < |ParsedSkills(MemoArray(ParseSkills(user)))| ==> ParsedSkills(MemoArray(ParseSkills(user)))[i] != ""
  {
  }

  /** Had the text branch been reached with the text the registration form sends, it would decode the items. */
  lemma TextBranchDecodesStringifiedArray(items: seq<string>)
    ensures ParsedSkills(MemoText(Json.StringifyArray(items))) == items
  {
    Json.StringifyRoundTrip(items);
  }

  // ---------------------------------------------------------------- display helpers

  /** A string-valued property of the user, or None when the key is missing. */
  function TextProp(user: User, key: string): (v: Option<string>)
    ensures v.Some? <==> key in user && user[key].Str?
    ensures v.Some? ==> user[key] == Str(v.value)
  {
    if key in user && user[key].Str? then Some(user[key].s) else None
  }

  /** `Field`: `value?.trim() || "-"`. */
  function FieldText(value: Option<string>): (r: string)
    ensures r != "" && IsTrimmed(r)
    ensures value.None? || AllWhiteSpace(value.value) ==> r == "-"
    ensures value.Some? && !AllWhiteSpace(value.value) ==> r == Trim(value.value)
  {
    match value
    case None => "-"
    case Some(v) =>
      TrimEmptyIff(v);
      if Trim(v) == "" then "-" else Trim(v)
  }

  /**
   * `formatDate`: "-" for a missing or empty date; otherwise the locale rendering of the
   * parsed date, or the text itself when `Date` cannot parse it. `localeFormat` stands for
   * `new Date(d).toLocaleDateString(...)`, None meaning an invalid date.
   */
  function FormatDate(d: Option<string>, localeFormat: string -> Option<string>): (r: string)
    ensures d.None? || d.value == "" ==> r == "-"
    ensures d.Some? && d.value != "" ==> r == d.value || localeFormat(d.value) == Some(r)
  {
    if d.None? || d.value == "" then "-"
    else
      match localeFormat(d.value)
      case Some(formatted) => formatted
      case None => d.value
  }

  // ---------------------------------------------------------------- edit form

  /** The keys the edit form has inputs for. The passing year is written as `passingYear`. */
  const EditableFields: seq<string> := ["name", "phone", "dob", "qualification", "college", "passingYear"]

  /** The updater `setEditData(prev => ({ ...prev, [field]: value }))`; spreading null gives {}. */
  function EditField(editData: Option<User>, field: string, value: string): (r: User)
    ensures field in r && r[field] == Str(value)
    ensures forall k :: k != field ==> (k in r <==> editData.Some? && k in editData.value)
    ensures forall k :: k != field && k in r ==> r[k] == editData.value[k]
  {
    var base := if editData.None? then map[] else editData.value;
    base[field := Str(value)]
  }

  /** `(editData as any)?.[field] || ""`: what an input shows; an array shows as its comma-joined items. */
  function EditInputValue(editData: Option<User>, field: string): (r: string)
    ensures editData.None? || field !in editData.value ==> r == ""
    ensures editData.Some? && field in editData.value && editData.value[field].Str? ==> r == editData.value[field].s
  {
    if editData.None? || field !in editData.value then ""
    else
      match editData.value[field]
      case Str(s) => s
      case StrArray(items) => Join(items, ',')
  }

  /** After an edit, the input shows what was typed. */
  lemma EditShowsTypedValue(editData: Option<User>, field: string, value: string)
    ensures EditInputValue(Some(EditField(editData, field, value)), field) == value
  {
  }

  /**
   * The passing-year input writes `passingYear` while the card reads `passing_year`:
   * editing it leaves the displayed passing year as it was.
   */
  lemma PassingYearEditLeavesDisplay(user: User, value: string)
    ensures TextProp(EditField(Some(user), "passingYear", value), "passing_year") == TextProp(user, "passing_year")
    ensures FieldText(TextProp(EditField(Some(user), "passingYear", value), "passing_year")) == FieldText(TextProp(user, "passing_year"))
  {
  }

  /** A user as the server sends it, without a `passingYear` key, opens with an empty passing-year input. */
  lemma PassingYearInputStartsEmpty(user: User)
    requires "passingYear" !in user
    ensures EditInputValue(Some(user), "passingYear") == ""
  {
  }

  // ---------------------------------------------------------------- the page's state

  class ProfilePage {
    var user: Option<User>
    var editData: Option<User>
    var isModalOpen: bool

    constructor ()
      ensures user == None && editData == None && !isModalOpen
    {
      user, editData, isModalOpen := None, None, false;
    }

    /** The skills shown in the skills card. */
    function Skills(): (r: seq<string>)
      reads this
      ensures forall i :: 0 <= i < |r| ==> r[i] != ""
    {
      ParseSkills(user)
    }

    /** The profile request resolved with `u`. */
    method ProfileLoaded(u: User)
      modifies this
      ensures user == Some(u) && editData == old(editData) && isModalOpen == old(isModalOpen)
    {
      user := Some(u);
    }

    /** `openModal`: edit a copy of the shown user. */
    method OpenModal()
      modifies this
      ensures editData == user && isModalOpen && user == old(user)
    {
      editData := user;
      isModalOpen := true;
    }

    /** Typing in the input for `field`: only that key of `editData` changes; the shown user does not. */
    method EditInput(field: string, value: string)
      requires field in EditableFields
      modifies this
      ensures editData == Some(EditField(old(editData), field, value))
      ensures user == old(user) && isModalOpen == old(isModalOpen)
    {
      editData := Some(EditField(editData, field, value));
    }

    method CloseModal()
      modifies this
      ensures !isModalOpen && user == old(user) && editData == old(editData)
    {
      isModalOpen := false;
    }

    /** The update request resolved with `updated`: show it and close the dialog. */
    method SaveSucceeded(updated: User)
      modifies this
      ensures user == Some(updated) && !isModalOpen && editData == old(editData)
    {
      user := Some(updated);
      isModalOpen := false;
    }
  }
}
