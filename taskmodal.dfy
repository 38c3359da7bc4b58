/** The form logic of `TaskModal.tsx`: the comma-separated tag field and
    its pre-fill, the duration field's fallback, the default form, the
    save guard, and the `formData`/`tagInput` state the handlers update. */
module TaskModal {
  import opened Types
  import opened Sequences

  // ---------------------------------------------------------------------
  // String.prototype.split(',') and Array.prototype.join

  /** The pieces between commas; the empty string is one empty piece. */
  function Split(s: string): (r: seq<string>)
    ensures |r| >= 1
    ensures forall i :: 0 <= i < |r| ==> ',' !in r[i]
    decreases |s|
  {
    if s == [] then [[]]
    else if s[0] == ',' then [[]] + Split(s[1..])
    else
      var r := Split(s[1..]);
      [[s[0]] + r[0]] + r[1..]
  }

  /** The pieces written back with the separator between them. */
  function Join(parts: seq<string>, sep: string): (r: string)
    ensures parts == [] ==> r == []
    ensures parts != [] ==> parts[0] <= r
    decreases |parts|
  {
    if parts == [] then []
    else if |parts| == 1 then parts[0]
    else parts[0] + sep + Join(parts[1..], sep)
  }

  /** Splitting and joining with a comma are inverse. */
  lemma {:induction false} SplitJoin(s: string)
    ensures Join(Split(s), ",") == s
    decreases |s|
  {
    if s != [] {
      SplitJoin(s[1..]);
      var r := Split(s[1..]);
      if s[0] != ',' {
        if |r| > 1 {
          assert [[s[0]] + r[0]] + r[1..] == [[s[0]] + r[0]] + r[1..];
          assert ([[s[0]] + r[0]] + r[1..])[1..] == r[1..];
          assert r == [r[0]] + r[1..];
          assert Join(r, ",") == r[0] + "," + Join(r[1..], ",");
        }
      } else {
        assert ([[]] + r)[1..] == r;
      }
    }
  }

  /** A comma splits the text into the pieces of each side. */
  lemma {:induction false} SplitAtComma(a: string, b: string)
    ensures Split(a + "," + b) == Split(a) + Split(b)
    decreases |a|
  {
    if a == [] {
      assert a + "," + b == [','] + b;
      assert ([','] + b)[1..] == b;
    } else {
      assert (a + "," + b)[1..] == a[1..] + "," + b;
      SplitAtComma(a[1..], b);
    }
  }

  lemma {:induction false} SplitNoComma(s: string)
    requires ',' !in s
    ensures Split(s) == [s]
    decreases |s|
  {
    if s != [] {
      SplitNoComma(s[1..]);
      assert s == [s[0]] + s[1..];
    }
  }

  // ---------------------------------------------------------------------
  // String.prototype.trim

  /** ECMAScript white space and line terminators. */
  predicate IsWhite(c: char) {
    c == '\t' || c == '\n' || c == '\U{B}' || c == '\U{C}' || c == '\r' || c == ' ' ||
    c == '\U{A0}' || c == '\U{1680}' || ('\U{2000}' <= c <= '\U{200A}') ||
    c == '\U{2028}' || c == '\U{2029}' || c == '\U{202F}' || c == '\U{205F}' ||
    c == '\U{3000}' || c == '\U{FEFF}'
  }

  predicate IsTrimmed(s: string) {
    s == [] || (!IsWhite(s[0]) && !IsWhite(s[|s| - 1]))
  }

  /** `s` without its leading white space. */
  function TrimStart(s: string): (r: string)
    ensures |r| <= |s|
    decreases |s|
  {
    if s != [] && IsWhite(s[0]) then TrimStart(s[1..]) else s
  }

  /** `s` without its trailing white space. */
  function TrimEnd(s: string): (r: string)
    ensures |r| <= |s|
    decreases |s|
  {
    if s != [] && IsWhite(s[|s| - 1]) then TrimEnd(s[..|s| - 1]) else s
  }

  /** `TrimStart` drops a prefix of white space and stops at the first
      other character. */
  lemma {:induction false} TrimStartSpec(s: string)
    ensures var r := TrimStart(s);
      r == s[|s| - |r|..] && (r == [] || !IsWhite(r[0])) &&
      forall i :: 0 <= i < |s| - |r| ==> IsWhite(s[i])
    decreases |s|
  {
    if s != [] && IsWhite(s[0]) {
      TrimStartSpec(s[1..]);
    }
  }

  /** `TrimEnd` drops a suffix of white space and stops at the last other
      character. */
  lemma {:induction false} TrimEndSpec(s: string)
    ensures var r := TrimEnd(s);
      r == s[..|r|] && (r == [] || !IsWhite(r[|r| - 1])) &&
      forall i :: |r| <= i < |s| ==> IsWhite(s[i])
    decreases |s|
  {
    if s != [] && IsWhite(s[|s| - 1]) {
      TrimEndSpec(s[..|s| - 1]);
    }
  }

  /** `trim`: the text without its leading and trailing white space. */
  function Trim(s: string): (r: string)
    ensures IsTrimmed(r)
  {
    TrimStartSpec(s);
    TrimEndSpec(TrimStart(s));
    var a := TrimStart(s);
    var r := TrimEnd(a);
    assert r != [] ==> r[0] == a[0];
    r
  }

  /** Trimming only removes characters. */
  lemma TrimKeepsChars(s: string)
    ensures forall c :: c in Trim(s) ==> c in s
  {
    var a := TrimStart(s);
    var r := TrimEnd(a);
    TrimStartSpec(s);
    TrimEndSpec(a);
    assert r == s[|s| - |a|..][..|r|];
  }

  /** A trimmed text is its own trim. */
  lemma TrimOfTrimmed(s: string)
    requires IsTrimmed(s)
    ensures Trim(s) == s
  {
  }

  /** A leading space does not change the trim. */
  lemma TrimLeadingSpace(s: string)
    ensures Trim(" " + s) == Trim(s)
  {
    assert (" " + s)[1..] == s;
  }

  /** The trim is empty exactly when the text is white space only. */
  lemma TrimBlank(s: string)
    ensures Trim(s) == [] <==> forall i :: 0 <= i < |s| ==> IsWhite(s[i])
  {
    var a := TrimStart(s);
    TrimStartSpec(s);
    TrimEndSpec(a);
  }

  // ---------------------------------------------------------------------
  // The tag field

  function TrimAll(parts: seq<string>): (r: seq<string>)
    ensures |r| == |parts|
    decreases |parts|
  {
    if parts == [] then [] else [Trim(parts[0])] + TrimAll(parts[1..])
  }

  lemma {:induction false} TrimAllAt(parts: seq<string>, k: nat)
    requires k < |parts|
    ensures TrimAll(parts)[k] == Trim(parts[k])
    decreases k
  {
    if k > 0 {
      TrimAllAt(parts[1..], k - 1);
    }
  }

  lemma {:induction false} TrimAllAppend(a: seq<string>, b: seq<string>)
    ensures TrimAll(a + b) == TrimAll(a) + TrimAll(b)
    decreases |a|
  {
    if a == [] {
      assert a + b == b;
    } else {
      assert (a + b)[0] == a[0];
      assert (a + b)[1..] == a[1..] + b;
      TrimAllAppend(a[1..], b);
    }
  }

  function NonEmpty(): string -> bool {
    (t: string) => |t| > 0
  }

  /** `tagInput.split(',').map(t => t.trim()).filter(t => t.length > 0)`:
      every tag is non-empty, carries no surrounding white space and holds
      no comma. */
  function ParseTags(input: string): (tags: seq<string>)
    ensures forall i :: 0 <= i < |tags| ==> |tags[i]| > 0 && IsTrimmed(tags[i]) && ',' !in tags[i]
  {
    var parts := Split(input);
    var trimmed := TrimAll(parts);
    forall x | x in trimmed ensures IsTrimmed(x) && ',' !in x {
      var k :| 0 <= k < |trimmed| && trimmed[k] == x;
      TrimAllAt(parts, k);
      TrimKeepsChars(parts[k]);
    }
    Filter(trimmed, NonEmpty())
  }

  /** Tags on both sides of a comma are parsed independently and kept in
      order, so duplicates survive. */
  lemma ParseTagsAtComma(a: string, b: string)
    ensures ParseTags(a + "," + b) == ParseTags(a) + ParseTags(b)
  {
    SplitAtComma(a, b);
    TrimAllAppend(Split(a), Split(b));
    FilterAppend(TrimAll(Split(a)), TrimAll(Split(b)), NonEmpty());
  }

  lemma ParseTagsLeadingSpace(s: string)
    ensures ParseTags(" " + s) == ParseTags(s)
  {
    var r := Split(s);
    assert (" " + s)[0] == ' ' && (" " + s)[1..] == s;
    assert Split(" " + s) == [" " + r[0]] + r[1..];
    TrimLeadingSpace(r[0]);
    assert r == [r[0]] + r[1..];
    TrimAllAppend([" " + r[0]], r[1..]);
    TrimAllAppend([r[0]], r[1..]);
  }

  /** A tag fit for the field: non-empty, trimmed, without commas. */
  predicate WellFormedTag(t: string) {
    |t| > 0 && IsTrimmed(t) && ',' !in t
  }

  lemma ParseTagsSingle(t: string)
    requires WellFormedTag(t)
    ensures ParseTags(t) == [t]
  {
    SplitNoComma(t);
    TrimOfTrimmed(t);
  }

  /** The pre-fill round trip: parsing `tags.join(', ')` gives back the
      tags whenever each is non-empty, trimmed and comma-free. */
  lemma {:induction false} ParseJoinedTags(tags: seq<string>)
    requires forall i :: 0 <= i < |tags| ==> WellFormedTag(tags[i])
    ensures ParseTags(Join(tags, ", ")) == tags
    decreases |tags|
  {
    if tags == [] {
      assert ParseTags([]) == Filter([Trim([])], NonEmpty());
    } else if |tags| == 1 {
      ParseTagsSingle(tags[0]);
    } else {
      var rest := Join(tags[1..], ", ");
      assert Join(tags, ", ") == tags[0] + "," + (" " + rest);
      ParseTagsAtComma(tags[0], " " + rest);
      ParseTagsLeadingSpace(rest);
      ParseTagsSingle(tags[0]);
      ParseJoinedTags(tags[1..]);
      assert tags == [tags[0]] + tags[1..];
    }
  }

  // ---------------------------------------------------------------------
  // The duration field

  predicate IsDigit(c: char) {
    '0' <= c <= '9'
  }

  function DigitValue(c: char): nat
    requires IsDigit(c)
  {
    c as int - '0' as int
  }

  /** The length of the run of digits `s` starts with. */
  function DigitRun(s: string): (n: nat)
    ensures n <= |s|
    ensures forall i :: 0 <= i < n ==> IsDigit(s[i])
    ensures n < |s| ==> !IsDigit(s[n])
    decreases |s|
  {
    if s != [] && IsDigit(s[0]) then 1 + DigitRun(s[1..]) else 0
  }

  /** The decimal value of a string of digits. */
  function DigitsValue(s: string): nat
    requires forall i :: 0 <= i < |s| ==> IsDigit(s[i])
    decreases |s|
  {
    if s == [] then 0 else 10 * DigitsValue(s[..|s| - 1]) + DigitValue(s[|s| - 1])
  }

  /** The text after an optional sign. */
  function Unsigned(u: string): (d: string)
    ensures d == u || (u != [] && d == u[1..])
  {
    if u != [] && (u[0] == '-' || u[0] == '+') then u[1..] else u
  }

  /** `parseInt` with no radix, on decimal text: leading white space, an
      optional sign, then the longest run of digits; `None` stands for
      `NaN`. */
  function ParseInt(s: string): (r: Option<int>)
    ensures r.None? <==> DigitRun(Unsigned(TrimStart(s))) == 0
  {
    var u := TrimStart(s);
    var d := Unsigned(u);
    var n := DigitRun(d);
    if n == 0 then None
    else
      var digits := d[..n];
      assert forall i :: 0 <= i < |digits| ==> IsDigit(digits[i]);
      var v: int := DigitsValue(digits);
      Some(if u[0] == '-' then -v else v)
  }

  /** `parseInt(value) || 1`: `NaN` and 0 fall back to 1. */
  function DurationFallback(s: string): (d: int)
    ensures d != 0
    ensures ParseInt(s).None? ==> d == 1
    ensures ParseInt(s).Some? && ParseInt(s).value != 0 ==> d == ParseInt(s).value
  {
    match ParseInt(s)
    case None => 1
    case Some(n) => if n == 0 then 1 else n
  }

  /** The decimal notation of a natural number. */
  function NatToString(n: nat): (s: string)
    ensures |s| > 0
    ensures forall i :: 0 <= i < |s| ==> IsDigit(s[i])
  {
    var c := ('0' as int + n % 10) as char;
    if n < 10 then [c] else NatToString(n / 10) + [c]
  }

  lemma {:induction false} DigitsValueOfNat(n: nat)
    ensures DigitsValue(NatToString(n)) == n
  {
    var s := NatToString(n);
    assert s[..|s| - 1] == if n < 10 then [] else NatToString(n / 10);
    if n >= 10 {
      DigitsValueOfNat(n / 10);
    }
  }

  lemma {:induction false} DigitRunAll(s: string)
    requires forall i :: 0 <= i < |s| ==> IsDigit(s[i])
    ensures DigitRun(s) == |s|
    decreases |s|
  {
    if s != [] {
      DigitRunAll(s[1..]);
    }
  }

  /** The number field's text for a natural number parses back to it, so
      any positive duration typed is kept, and 0 becomes 1. */
  lemma ParseIntOfNat(n: nat)
    ensures ParseInt(NatToString(n)) == Some(n)
    ensures DurationFallback(NatToString(n)) == if n == 0 then 1 else n
  {
    ParseDigits(NatToString(n));
    DigitsValueOfNat(n);
  }

  lemma ParseDigits(s: string)
    requires s != [] && forall i :: 0 <= i < |s| ==> IsDigit(s[i])
    ensures ParseInt(s) == Some(DigitsValue(s))
  {
    assert IsDigit(s[0]) && !IsWhite(s[0]) && s[0] != '-' && s[0] != '+';
    assert TrimStart(s) == s;
    assert Unsigned(s) == s;
    DigitRunAll(s);
    assert s[..|s|] == s;
  }

  /** A negative entry parses to its negative value and is not caught by
      the fallback. */
  lemma DurationKeepsNegative(n: nat)
    requires n > 0
    ensures DurationFallback("-" + NatToString(n)) == -(n as int)
  {
    var x := NatToString(n);
    var s := "-" + x;
    assert TrimStart(s) == s;
    assert Unsigned(s) == x;
    DigitRunAll(x);
    assert x[..|x|] == x;
    DigitsValueOfNat(n);
  }

  // ---------------------------------------------------------------------
  // The form

  /** The form of a new task. */
  const DefaultForm := EmptyPatch.(title := Some(""), description := Some(""), notes := Some(""),
    priority := Some(Medium), status := Some(Todo), tags := Some([]), colorLabel := Some(None),
    dueDate := Some(None), startDate := Some(None), duration := Some(1), parentId := Some(None),
    order := Some(0), completed := Some(false))

  /** The save button is disabled while the title is missing or blank. */
  predicate SaveDisabled(form: Patch) {
    form.title.None? || Trim(form.title.value) == []
  }

  /** So saving is disabled exactly when the title is missing or made of
      white space only. */
  lemma SaveDisabledBlank(form: Patch)
    ensures SaveDisabled(form) <==>
            form.title.None? || forall i :: 0 <= i < |form.title.value| ==> IsWhite(form.title.value[i])
  {
    if form.title.Some? {
      TrimBlank(form.title.value);
    }
  }


  /** What `handleSubmit` hands to `onSave`: the form with the parsed tags. */
  function Submitted(form: Patch, tagInput: string): (p: Patch)
    ensures p.tags == Some(ParseTags(tagInput))
    ensures p.(tags := form.tags) == form
  {
    form.(tags := Some(ParseTags(tagInput)))
  }

  /** Opening an existing task and saving it untouched reproduces the task
      exactly, provided its tags are fit for the field. */
  lemma EditUntouched(task: Task)
    requires forall i :: 0 <= i < |task.tags| ==> WellFormedTag(task.tags[i])
    ensures forall u: Task :: Merge(u, Submitted(AsPatch(task), Join(task.tags, ", "))) == task
  {
    ParseJoinedTags(task.tags);
    assert Submitted(AsPatch(task), Join(task.tags, ", ")) == AsPatch(task);
  }

  /** The modal's `formData` and `tagInput` state. */
  class TaskForm {
    var formData: Patch
    var tagInput: string

    constructor ()
      ensures formData == DefaultForm && tagInput == []
    {
      formData := DefaultForm;
      tagInput := [];
    }

    /** The effect run when the modal opens or its task changes. */
    method Open(task: Option<Task>)
      modifies this
      ensures task.Some? ==> formData == AsPatch(task.value) && tagInput == Join(task.value.tags, ", ")
      ensures task.None? ==> formData == DefaultForm && tagInput == []
    {
      if task.Some? {
        formData := AsPatch(task.value);
        tagInput := Join(task.value.tags, ", ");
      } else {
        formData := DefaultForm;
        tagInput := [];
      }
    }

    method SetTitle(v: string)
      modifies this
      ensures formData == old(formData).(title := Some(v)) && tagInput == old(tagInput)
    {
      formData := formData.(title := Some(v));
    }

    method SetDescription(v: string)
      modifies this
      ensures formData == old(formData).(description := Some(v)) && tagInput == old(tagInput)
    {
      formData := formData.(description := Some(v));
    }

    method SetPriority(v: Priority)
      modifies this
      ensures formData == old(formData).(priority := Some(v)) && tagInput == old(tagInput)
    {
      formData := formData.(priority := Some(v));
    }

    method SetStatus(v: Status)
      modifies this
      ensures formData == old(formData).(status := Some(v)) && tagInput == old(tagInput)
    {
      formData := formData.(status := Some(v));
    }

    /** The date pickers; an unselected day clears the field. */
    method SetStartDate(v: Option<Day>)
      modifies this
      ensures formData == old(formData).(startDate := Some(v)) && tagInput == old(tagInput)
    {
      formData := formData.(startDate := Some(v));
    }

    method SetDueDate(v: Option<Day>)
      modifies this
      ensures formData == old(formData).(dueDate := Some(v)) && tagInput == old(tagInput)
    {
      formData := formData.(dueDate := Some(v));
    }

    method SetDuration(text: string)
      modifies this
      ensures formData == old(formData).(duration := Some(DurationFallback(text))) && tagInput == old(tagInput)
      ensures formData.duration.value != 0
    {
      formData := formData.(duration := Some(DurationFallback(text)));
    }

    method SetTagInput(v: string)
      modifies this
      ensures formData == old(formData) && tagInput == v
    {
      tagInput := v;
    }

    /** The colour swatches; the "None" swatch's empty value clears it. */
    method SetColor(v: string)
      modifies this
      ensures formData == old(formData).(colorLabel := Some(if v == [] then None else Some(v)))
      ensures tagInput == old(tagInput)
    {
      formData := formData.(colorLabel := Some(if v == [] then None else Some(v)));
    }

    method SetNotes(v: string)
      modifies this
      ensures formData == old(formData).(notes := Some(v)) && tagInput == old(tagInput)
    {
      formData := formData.(notes := Some(v));
    }

    /** `handleSubmit`, up to the call to `onSave`. */
    method Submit() returns (saved: Patch)
      ensures saved == Submitted(formData, tagInput)
    {
      var tags := ParseTags(tagInput);
      saved := formData.(tags := Some(tags));
    }

    function CanSave(): (b: bool)
      reads this
      ensures b <==> !SaveDisabled(formData)
    {
      formData.title.Some? && Trim(formData.title.value) != []
    }
  }
}
