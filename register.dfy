/**
 * The registration page: the form record (an object whose keys keep their insertion
 * order), the change handler that replaces one of its fields, the submission loop that
 * turns it into multipart form entries, and the test that colours the status message.
 */
module Register {
  import opened Wrappers
  import opened Seqs
  import opened JsStrings
  import opened Json

  /** A browser `File` object; the model only needs its identity. */
  datatype File = File(handle: nat)

  /** The value held under one key of the form record. */
  datatype FieldValue = Text(text: string) | Upload(file: File) | Null

  /** The form record: its entries in the order a `for..in` loop visits them. */
  type FormRecord = seq<(string, FieldValue)>

  /** The keys of a record (or of a list of form entries), in order. */
  function Keys<P>(r: seq<(string, P)>): (ks: seq<string>)
    ensures |ks| == |r| && forall i :: 0 <= i < |r| ==> ks[i] == r[i].0
  {
    Map((e: (string, P)) => e.0, r)
  }

  /** The value under the first occurrence of `key`, or None when there is no such key. */
  function Lookup<P>(r: seq<(string, P)>, key: string): (v: Option<P>)
    ensures v.Some? <==> key in Keys(r)
  {
    if r == [] then None
    else if r[0].0 == key then Some(r[0].1)
    else Lookup(r[1..], key)
  }

  /**
   * `{ ...prev, [key]: value }`: an existing key keeps its place and takes the new value;
   * a new key is added at the end.
   */
  function Put(r: FormRecord, key: string, value: FieldValue): (r': FormRecord)
    ensures key in Keys(r) ==> Keys(r') == Keys(r)
    ensures key !in Keys(r) ==> Keys(r') == Keys(r) + [key]
    ensures forall k :: Lookup(r', k) == if k == key then Some(value) else Lookup(r, k)
  {
    if r == [] then [(key, value)]
    else if r[0].0 == key then [(key, value)] + r[1..]
    else
      var rest := Put(r[1..], key, value);
      assert Keys([r[0]] + rest) == [r[0].0] + Keys(rest);
      assert Keys(r) == [r[0].0] + Keys(r[1..]);
      [r[0]] + rest
  }

  /** The record `useState` starts with: every text field empty, then `resume` null. */
  const InitialForm: FormRecord := [
    ("name", Text("")), ("email", Text("")), ("phone", Text("")), ("dob", Text("")),
    ("qualification", Text("")), ("college", Text("")), ("passingYear", Text("")),
    ("lastCompany", Text("")), ("experience", Text("")), ("skills", Text("")),
    ("password", Text("")), ("confirmPassword", Text("")), ("resume", Null)
  ]

  /** A key's length and first character, packed into one number. */
  function KeySignature(k: string): int {
    |k| * 0x1_0000 + if k == [] then 0 else k[0] as int
  }

  /**
   * The position in the initial record of the key with signature `sig`, or 13 when no key
   * has it. No two keys of the initial record have the same signature.
   */
  function InitialRank(sig: int): nat {
    if sig == 4 * 0x1_0000 + 'n' as int then 0 else if sig == 5 * 0x1_0000 + 'e' as int then 1
    else if sig == 5 * 0x1_0000 + 'p' as int then 2 else if sig == 3 * 0x1_0000 + 'd' as int then 3
    else if sig == 13 * 0x1_0000 + 'q' as int then 4 else if sig == 7 * 0x1_0000 + 'c' as int then 5
    else if sig == 11 * 0x1_0000 + 'p' as int then 6 else if sig == 11 * 0x1_0000 + 'l' as int then 7
    else if sig == 10 * 0x1_0000 + 'e' as int then 8 else if sig == 6 * 0x1_0000 + 's' as int then 9
    else if sig == 8 * 0x1_0000 + 'p' as int then 10 else if sig == 15 * 0x1_0000 + 'c' as int then 11
    else if sig == 6 * 0x1_0000 + 'r' as int then 12 else 13
  }

  /**
   * The initial record's keys are distinct: the key at each position has that position
   * as its rank, so two positions holding the same key are the same position.
   */
  lemma InitialKeysDistinct()
    ensures NoDuplicates(Keys(InitialForm))
  {
    InitialRanksLow();
    InitialRanksHigh();
    RankedKeysDistinct(InitialForm, k => InitialRank(KeySignature(k)));
  }

  /** Keys whose rank is their position are distinct. */
  lemma RankedKeysDistinct<P>(r: seq<(string, P)>, rank: string -> int)
    requires forall i | 0 <= i < |r| :: rank(r[i].0) == i
    ensures NoDuplicates(Keys(r))
  {
    var ks := Keys(r);
    forall i, j | 0 <= i < j < |ks| ensures ks[i] != ks[j] {
      assert rank(ks[i]) == i && rank(ks[j]) == j;
    }
  }

  // Each position of the thirteen-entry literal is a separate case for the solver,
  // so the ranks are established in two halves.

  lemma InitialRanksLow()
    ensures |InitialForm| == 13
    ensures forall i | 0 <= i < 7 :: InitialRank(KeySignature(InitialForm[i].0)) == i
  {
    forall i | 0 <= i < 7 ensures InitialRank(KeySignature(InitialForm[i].0)) == i {
      if i == 0 { } else if i == 1 { } else if i == 2 { } else if i == 3 { }
      else if i == 4 { } else if i == 5 { } else { assert i == 6; }
    }
  }

  lemma InitialRanksHigh()
    ensures forall i | 7 <= i < 13 :: InitialRank(KeySignature(InitialForm[i].0)) == i
  {
    forall i | 7 <= i < 13 ensures InitialRank(KeySignature(InitialForm[i].0)) == i {
      if i == 7 { } else if i == 8 { } else if i == 9 { } else if i == 10 { }
      else if i == 11 { } else { assert i == 12; }
    }
  }

  /** Writing a key keeps the keys distinct: spread never duplicates a property. */
  lemma PutKeepsDistinct(r: FormRecord, key: string, value: FieldValue)
    ensures NoDuplicates(Keys(r)) ==> NoDuplicates(Keys(Put(r, key, value)))
  {
  }

  /** What `handleChange` reads from `e.target`. */
  datatype ChangeEvent = ChangeEvent(name: string, value: string, inputType: string, files: seq<File>)

  /** The updater `handleChange` passes to `setFormData`: the written key is present and the keys stay distinct. */
  function ApplyChange(r: FormRecord, ev: ChangeEvent): (r': FormRecord)
    ensures (if ev.inputType == "file" then "resume" else ev.name) in Keys(r')
    ensures NoDuplicates(Keys(r)) ==> NoDuplicates(Keys(r'))
  {
    if ev.inputType == "file" then
      var file := if |ev.files| > 0 then Upload(ev.files[0]) else Null;
      PutKeepsDistinct(r, "resume", file);
      Put(r, "resume", file)
    else
      PutKeepsDistinct(r, ev.name, Text(ev.value));
      Put(r, ev.name, Text(ev.value))
  }

  /** A text input changes the field it names and no other. */
  lemma TextChangeSetsOneField(r: FormRecord, ev: ChangeEvent, k: string)
    requires ev.inputType != "file"
    ensures Lookup(ApplyChange(r, ev), k) == if k == ev.name then Some(Text(ev.value)) else Lookup(r, k)
    ensures ev.name in Keys(r) ==> Keys(ApplyChange(r, ev)) == Keys(r)
  {
  }

  /** The file input sets `resume` to its first file, or to null when none is chosen, and changes nothing else. */
  lemma FileChangeSetsResume(r: FormRecord, ev: ChangeEvent, k: string)
    requires ev.inputType == "file"
    ensures Lookup(ApplyChange(r, ev), "resume") == Some(if ev.files == [] then Null else Upload(ev.files[0]))
    ensures k != "resume" ==> Lookup(ApplyChange(r, ev), k) == Lookup(r, k)
    ensures "resume" in Keys(r) ==> Keys(ApplyChange(r, ev)) == Keys(r)
  {
  }

  /** A change to a field the record already has keeps the record's keys in their order. */
  lemma ChangeKeepsKeys(r: FormRecord, ev: ChangeEvent)
    requires (if ev.inputType == "file" then "resume" else ev.name) in Keys(r)
    ensures Keys(ApplyChange(r, ev)) == Keys(r)
  {
  }

  // ---------------------------------------------------------------- submission

  /** One multipart form entry value. */
  datatype Part = TextPart(text: string) | FilePart(file: File)

  /**
   * The skills text as sent: a JSON array that parses back to the comma-separated pieces,
   * trimmed, with the empty ones dropped.
   */
  function EncodeSkills(skills: string): (json: string)
    ensures ParseArray(json) == Some(SplitItems(skills, {','}))
  {
    StringifyRoundTrip(SplitItems(skills, {','}));
    StringifyArray(SplitItems(skills, {','}))
  }

  /**
   * The entry value the loop appends for one key, or None when it skips the key.
   * `toString` of a file kept under another key is "[object File]".
   */
  function EncodeValue(key: string, value: FieldValue): (p: Option<Part>)
    ensures p.None? <==> value == Null
    ensures p.Some? && p.value.FilePart? <==> key == "resume" && value.Upload?
    ensures p.Some? && p.value.FilePart? ==> p.value.file == value.file
    ensures key == "skills" && value.Text? ==> p.Some? && p.value.TextPart? && ParseArray(p.value.text) == Some(SplitItems(value.text, {','}))
    ensures key != "skills" && value.Text? ==> p == Some(TextPart(value.text))
    ensures key != "resume" && value.Upload? ==> p == Some(TextPart("[object File]"))
  {
    match value
    case Null => None
    case Upload(f) => if key == "resume" then Some(FilePart(f)) else Some(TextPart("[object File]"))
    case Text(s) => if key == "skills" then Some(TextPart(EncodeSkills(s))) else Some(TextPart(s))
  }

  function EncodeEntry(e: (string, FieldValue)): seq<(string, Part)> {
    match EncodeValue(e.0, e.1)
    case None => []
    case Some(p) => [(e.0, p)]
  }

  /**
   * The entries `handleSubmit` appends to its `FormData`: exactly one per non-null key,
   * in record order; an empty text is still sent.
   */
  function EncodeForm(r: FormRecord): (entries: seq<(string, Part)>)
    ensures Keys(entries) == NonNullKeys(r)
  {
    if r == [] then []
    else
      var tail := EncodeForm(r[1..]);
      NonNullKeysCons(r);
      assert Keys(EncodeEntry(r[0]) + tail) == Keys(EncodeEntry(r[0])) + Keys(tail);
      EncodeEntry(r[0]) + tail
  }

  lemma {:induction false} EncodeFormAppend(r: FormRecord, e: (string, FieldValue))
    ensures EncodeForm(r + [e]) == EncodeForm(r) + EncodeEntry(e)
  {
    if r == [] {
      assert [e][1..] == [];
    } else {
      assert (r + [e])[1..] == r[1..] + [e];
      EncodeFormAppend(r[1..], e);
    }
  }

  /** The step of the submission loop: the prefix through key `i` encodes one entry more. */
  lemma EncodeFormPrefix(r: FormRecord, i: nat)
    requires i < |r|
    ensures EncodeForm(r[..i + 1]) == EncodeForm(r[..i]) + EncodeEntry(r[i])
  {
    assert r[..i + 1] == r[..i] + [r[i]];
    EncodeFormAppend(r[..i], r[i]);
  }

  predicate IsPresent(e: (string, FieldValue)) {
    e.1 != Null
  }

  /** The keys whose value is not null, in record order. */
  function NonNullKeys(r: FormRecord): seq<string> {
    Keys(Filter(IsPresent, r))
  }

  /** The non-null keys of a record are its first key, when not null, then those of the rest. */
  lemma NonNullKeysCons(r: FormRecord)
    requires r != []
    ensures NonNullKeys(r) == (if IsPresent(r[0]) then [r[0].0] else []) + NonNullKeys(r[1..])
  {
    if IsPresent(r[0]) {
      assert Filter(IsPresent, r) == [r[0]] + Filter(IsPresent, r[1..]);
      assert Keys([r[0]] + Filter(IsPresent, r[1..])) == [r[0].0] + NonNullKeys(r[1..]);
    }
  }

  /** Under distinct keys, each key is sent with the encoding of its value, and a null key is not sent. */
  lemma {:induction false} EncodeFormLookup(r: FormRecord, k: string)
    requires NoDuplicates(Keys(r))
    ensures Lookup(EncodeForm(r), k) == match Lookup(r, k) { case None => None case Some(v) => EncodeValue(k, v) }
  {
    if r != [] {
      assert NoDuplicates(Keys(r[1..])) by {
        forall i, j | 0 <= i < j < |r| - 1 ensures Keys(r[1..])[i] != Keys(r[1..])[j] {
          assert Keys(r)[i + 1] != Keys(r)[j + 1];
        }
      }
      EncodeFormLookup(r[1..], k);
      var tail := EncodeForm(r[1..]);
      if r[0].0 == k {
        assert k !in Keys(r[1..]) by {
          forall i | 0 <= i < |r| - 1 ensures Keys(r[1..])[i] != k {
            assert Keys(r)[i + 1] != Keys(r)[0];
          }
        }
        assert Lookup(tail, k).None?;
      }
      LookupAppend(EncodeEntry(r[0]), tail, k);
    }
  }

  /** `EncodeFormLookup` for every key at once. */
  lemma EncodeFormLookupAll(r: FormRecord)
    requires NoDuplicates(Keys(r))
    ensures forall k :: Lookup(EncodeForm(r), k) == match Lookup(r, k) { case None => None case Some(v) => EncodeValue(k, v) }
  {
    forall k ensures Lookup(EncodeForm(r), k) == match Lookup(r, k) { case None => None case Some(v) => EncodeValue(k, v) } {
      EncodeFormLookup(r, k);
    }
  }

  /** Looking up in a concatenation looks in the first part first. */
  lemma {:induction false} LookupAppend<P>(a: seq<(string, P)>, b: seq<(string, P)>, k: string)
    ensures Lookup(a + b, k) == if Lookup(a, k).Some? then Lookup(a, k) else Lookup(b, k)
  {
    if a != [] {
      assert (a + b)[1..] == a[1..] + b;
      LookupAppend(a[1..], b, k);
    } else {
      assert a + b == b;
    }
  }

  // ---------------------------------------------------------------- skills encoding

  /** A skills text of only commas and white space, such as "" or " , ,", is sent as "[]". */
  lemma BlankSkillsEncodeEmpty(skills: string)
    requires forall i :: 0 <= i < |skills| ==> skills[i] == ',' || IsJsWhiteSpace(skills[i])
    ensures EncodeSkills(skills) == "[]"
  {
    SplitItemsOfBlank(skills, {','});
  }

  /** The empty skills text is sent as "[]". */
  lemma EmptySkillsExample()
    ensures EncodeSkills("") == "[]"
  {
    BlankSkillsEncodeEmpty("");
  }

  /** The skills text " , ," is sent as "[]". */
  lemma BlankSkillsExample()
    ensures EncodeSkills(" , ,") == "[]"
  {
    var blank := " , ,";
    assert forall i | 0 <= i < |blank| :: blank[i] == ',' || blank[i] == ' ';
    BlankSkillsEncodeEmpty(blank);
  }

  /** Items already clean, joined with commas, are sent as exactly those items. */
  lemma CleanSkillsEncodeThemselves(items: seq<string>)
    requires forall i :: 0 <= i < |items| ==> IsCleanItem(items[i], {','})
    ensures EncodeSkills(Join(items, ',')) == StringifyArray(items)
  {
    SplitItemsOfJoin(items, ',', {','});
  }

  /** A null value is never sent; any other text field, the empty one included, is sent as its text. */
  lemma NullSkippedTextSent(r: FormRecord, k: string)
    requires NoDuplicates(Keys(r))
    ensures Lookup(r, k) == Some(Null) ==> k !in Keys(EncodeForm(r))
    ensures forall s :: Lookup(r, k) == Some(Text(s)) && k != "skills" ==> Lookup(EncodeForm(r), k) == Some(TextPart(s))
  {
    EncodeFormLookup(r, k);
  }

  // ---------------------------------------------------------------- status message

  /** The message is styled as a success exactly when its lower-cased text contains "success". */
  predicate IsSuccessMessage(message: string)
    ensures IsSuccessMessage(message) <==> exists i :: OccursAt(ToLowerCase(message), "success", i)
  {
    IncludesIffOccurs(ToLowerCase(message), "success");
    assert Includes(ToLowerCase(message), "success") <==> exists i :: OccursAt(ToLowerCase(message), "success", i);
    Includes(ToLowerCase(message), "success")
  }

  /** The banner under the title: none for an empty message, else green for success or red. */
  datatype Banner = NoBanner | SuccessBanner(text: string) | ErrorBanner(text: string)

  function MessageBanner(message: string): (b: Banner)
    ensures b.NoBanner? <==> message == ""
    ensures b.SuccessBanner? <==> message != "" && IsSuccessMessage(message)
    ensures b != NoBanner ==> b.text == message
  {
    if message == "" then NoBanner
    else if IsSuccessMessage(message) then SuccessBanner(message)
    else ErrorBanner(message)
  }

  /** Messages that differ only in letter case get the same colour. */
  lemma SuccessTestIgnoresCase(m1: string, m2: string)
    requires ToLowerCase(m1) == ToLowerCase(m2)
    ensures IsSuccessMessage(m1) == IsSuccessMessage(m2)
  {
  }

  /** A message without the letter u, in either case, is shown as an error. */
  lemma NoULetterIsNotSuccess(message: string)
    requires forall i | 0 <= i < |message| :: message[i] != 'u' && message[i] != 'U'
    ensures !IsSuccessMessage(message)
  {
    var lower := ToLowerCase(message);
    IncludesIffOccurs(lower, "success");
    forall i | 0 <= i < |lower| ensures lower[i] != 'u' {
      assert lower[i] == LowerChar(message[i]);
    }
    forall i | 0 <= i ensures !OccursAt(lower, "success", i) {
      if i + 7 <= |lower| {
        assert lower[i..i + 7][1] == lower[i + 1];
      }
    }
  }

  /** "Server error" is shown as an error. */
  lemma ServerErrorIsNotSuccess()
    ensures !IsSuccessMessage("Server error")
  {
    var message := "Server error";
    assert forall i | 0 <= i < |message| :: message[i] != 'u' && message[i] != 'U';
    NoULetterIsNotSuccess(message);
  }

  /**
   * One pass of the `for..in` body of `handleSubmit`: skip a null value, append the resume
   * as a file, the skills as a JSON array, and anything else as text.
   */
  method AppendEntry(data: seq<(string, Part)>, key: string, value: FieldValue) returns (data': seq<(string, Part)>)
    ensures data' == data + EncodeEntry((key, value))
  {
    if value == Null {
      return data;
    }
    if key == "resume" && value.Upload? {
      data' := data + [(key, FilePart(value.file))];
    } else if key == "skills" && value.Text? {
      var items := SplitItems(value.text, {','});
      data' := data + [(key, TextPart(StringifyArray(items)))];
    } else {
      var text := if value.Text? then value.text else "[object File]";
      data' := data + [(key, TextPart(text))];
    }
  }

  // ---------------------------------------------------------------- the page's state

  class RegisterPage {
    var formData: FormRecord
    var message: string

    /** The form record is a JavaScript object: no key occurs twice. */
    ghost predicate Valid()
      reads this
    {
      NoDuplicates(Keys(formData))
    }

    constructor ()
      ensures Valid()
      ensures formData == InitialForm && message == ""
    {
      formData, message := InitialForm, "";
      InitialKeysDistinct();
    }

    /** `handleChange`. */
    method HandleChange(ev: ChangeEvent)
      requires Valid()
      modifies this
      ensures Valid()
      ensures formData == ApplyChange(old(formData), ev)
      ensures message == old(message)
    {
      formData := ApplyChange(formData, ev);
    }

    /**
     * The `for..in` loop of `handleSubmit`: one entry per non-null key, in key order,
     * the resume as a file, the skills as a JSON array, everything else as text.
     */
    method BuildSubmission() returns (data: seq<(string, Part)>)
      requires Valid()
      ensures data == EncodeForm(formData)
      ensures Keys(data) == NonNullKeys(formData)
      ensures forall k :: Lookup(data, k) == match Lookup(formData, k) { case None => None case Some(v) => EncodeValue(k, v) }
    {
      data := [];
      var i := 0;
      while i < |formData|
        invariant 0 <= i <= |formData|
        invariant data == EncodeForm(formData[..i])
      {
        EncodeFormPrefix(formData, i);
        data := AppendEntry(data, formData[i].0, formData[i].1);
        i := i + 1;
      }
      assert formData[..i] == formData;
      EncodeFormLookupAll(formData);
    }
  }
}
