/** The request normaliser run before every controller: on a POST it
    lower-cases e-mails, title-cases names, sentence-cases free text and turns
    date fields into Date objects, in place on the parsed body. */
module RequestMiddleware {
  import opened Wrappers
  import opened Js

  // ---------------------------------------------------------------- casing

  /** The characters `[.!?]` that end a sentence. */
  predicate IsStop(c: char) { c == '.' || c == '!' || c == '?' }

  /** The whitespace run from `i` on ends in a word character. */
  predicate WordAhead(s: string, i: nat)
    requires i <= |s|
  {
    var j := SkipSpace(s, i);
    j < |s| && IsWordChar(s[j])
  }

  /** Whitespace and stops are neither word characters nor lower-case letters,
      and a word character is neither whitespace nor a stop. */
  lemma Plain(c: char)
    ensures IsSpace(c) || IsStop(c) ==> !IsWordChar(c) && !IsLower(c)
    ensures IsWordChar(c) ==> !IsSpace(c) && !IsStop(c)
  {
  }

  lemma SliceSplit(m: string, i: nat, j: nat)
    requires i <= j <= |m|
    ensures m[i..] == m[i..j] + m[j..]
  {
  }

  /** Where a match of `/(^\w{1})|(\s+\w{1})/` tried at position `i` ends
      (the `\s+` is greedy); `i` itself when nothing matches there. */
  function TitleMatchEnd(s: string, i: nat): (e: nat)
    requires i < |s|
    ensures i <= e <= |s|
  {
    if i == 0 && IsWordChar(s[0]) then 1
    else if IsSpace(s[i]) && WordAhead(s, i) then SkipSpace(s, i) + 1
    else i
  }

  /** `s.replace(/(^\w{1})|(\s+\w{1})/g, m => m.toUpperCase())` from search
      position `i` on: the global replace tries a match at each position,
      upper-cases what it matched and resumes after it, or copies one
      character and moves on. */
  function TitleScan(s: string, i: nat): (r: string)
    requires i <= |s|
    ensures |r| == |s| - i
    decreases |s| - i
  {
    if i == |s| then []
    else
      var e := TitleMatchEnd(s, i);
      if e > i then ToUpper(s[i..e]) + TitleScan(s, e) else [s[i]] + TitleScan(s, i + 1)
  }

  /** Reference definition: a word character is capitalised exactly when it
      opens the string or follows whitespace. */
  predicate TitleStart(s: string, k: nat)
    requires k < |s|
  {
    IsWordChar(s[k]) && (k == 0 || IsSpace(s[k - 1]))
  }

  function TitleMarked(s: string): (r: string)
    ensures |r| == |s|
  {
    seq(|s|, k requires 0 <= k < |s| => if TitleStart(s, k) then ToUpperChar(s[k]) else s[k])
  }

  /** The positions the scan can resume at: never a word character right
      after whitespace (that one belongs to the match before it). */
  predicate TitleResumable(s: string, i: nat)
    requires i <= |s|
  {
    i == 0 || i == |s| || !IsSpace(s[i - 1]) || !IsWordChar(s[i])
  }

  lemma TitleMatchChar(s: string, i: nat, k: nat)
    requires i < |s| && TitleMatchEnd(s, i) > i && i <= k < TitleMatchEnd(s, i)
    ensures TitleMarked(s)[k] == ToUpperChar(s[k])
  {
    if k < TitleMatchEnd(s, i) - 1 {
      Plain(s[k]);
    }
  }

  /** A match is upper-cased as the reference marks it. */
  lemma TitleMatchMarks(s: string, i: nat)
    requires i < |s| && TitleMatchEnd(s, i) > i
    ensures ToUpper(s[i..TitleMatchEnd(s, i)]) == TitleMarked(s)[i..TitleMatchEnd(s, i)]
    ensures TitleResumable(s, TitleMatchEnd(s, i))
  {
    var e := TitleMatchEnd(s, i);
    Plain(s[e - 1]);
    forall k | i <= k < e
      ensures ToUpper(s[i..e])[k - i] == TitleMarked(s)[k]
    {
      TitleMatchChar(s, i, k);
    }
  }

  /** Where nothing matches, the character is one the reference leaves alone. */
  lemma TitleMissMarks(s: string, i: nat)
    requires i < |s| && TitleResumable(s, i) && TitleMatchEnd(s, i) == i
    ensures TitleMarked(s)[i] == s[i]
    ensures TitleResumable(s, i + 1)
  {
    Plain(s[i]);
    if i + 1 < |s| && IsSpace(s[i]) {
      Plain(s[i + 1]);
    }
  }

  /** The regex scan capitalises exactly the characters the reference marks. */
  lemma {:induction false} TitleScanMarks(s: string, i: nat)
    requires i <= |s| && TitleResumable(s, i)
    ensures TitleScan(s, i) == TitleMarked(s)[i..]
    decreases |s| - i
  {
    if i < |s| {
      var e := TitleMatchEnd(s, i);
      if e > i {
        TitleMatchMarks(s, i);
        TitleScanMarks(s, e);
        SliceSplit(TitleMarked(s), i, e);
      } else {
        TitleMissMarks(s, i);
        TitleScanMarks(s, i + 1);
        SliceSplit(TitleMarked(s), i, i + 1);
        assert TitleMarked(s)[i..i + 1] == [s[i]];
      }
    }
  }

  /** `wordChangeTitleCase`: lower-case, then capitalise the first word
      character of the string and each one that follows whitespace. */
  function TitleCase(word: string): (r: string)
    ensures |r| == |word|
    ensures forall k :: 0 <= k < |word| ==>
              r[k] == (if TitleStart(ToLower(word), k) then ToUpperChar(ToLowerChar(word[k])) else ToLowerChar(word[k]))
  {
    TitleScanMarks(ToLower(word), 0);
    TitleScan(ToLower(word), 0)
  }

  /** Applying the title-case rewrite twice is the same as once. */
  lemma TitleCaseIdempotent(word: string)
    ensures TitleCase(TitleCase(word)) == TitleCase(word)
  {
    LowerOfCased(word, TitleCase(word));
  }

  /** Where a match of `/(^\w|[.!?]\s*\w)/` tried at position `i` ends;
      `i` itself when nothing matches there. */
  function SentenceMatchEnd(s: string, i: nat): (e: nat)
    requires i < |s|
    ensures i <= e <= |s|
  {
    if i == 0 && IsWordChar(s[0]) then 1
    else if IsStop(s[i]) && WordAhead(s, i + 1) then SkipSpace(s, i + 1) + 1
    else i
  }

  /** `s.replace(/(^\w|[.!?]\s*\w)/g, m => m.toUpperCase())` from search
      position `i` on. */
  function SentenceScan(s: string, i: nat): (r: string)
    requires i <= |s|
    ensures |r| == |s| - i
    decreases |s| - i
  {
    if i == |s| then []
    else
      var e := SentenceMatchEnd(s, i);
      if e > i then ToUpper(s[i..e]) + SentenceScan(s, e) else [s[i]] + SentenceScan(s, i + 1)
  }

  /** Start of the whitespace run that ends just before position `k`. */
  function RunStart(s: string, k: nat): (r: nat)
    requires k <= |s|
    ensures r <= k
    ensures forall m :: r <= m < k ==> IsSpace(s[m])
    ensures r == 0 || !IsSpace(s[r - 1])
    decreases k
  {
    if k > 0 && IsSpace(s[k - 1]) then RunStart(s, k - 1) else k
  }

  /** Position `k` is preceded by a sentence stop and then only whitespace. */
  predicate AfterStop(s: string, k: nat)
    requires k <= |s|
  {
    var r := RunStart(s, k);
    r > 0 && IsStop(s[r - 1])
  }

  /** Reference definition: a word character is capitalised exactly when it
      opens the string or when only whitespace separates it from a stop. */
  predicate SentenceStart(s: string, k: nat)
    requires k < |s|
  {
    IsWordChar(s[k]) && (k == 0 || AfterStop(s, k))
  }

  function SentenceMarked(s: string): (r: string)
    ensures |r| == |s|
  {
    seq(|s|, k requires 0 <= k < |s| => if SentenceStart(s, k) then ToUpperChar(s[k]) else s[k])
  }

  /** The positions the scan can resume at: never inside a stop-whitespace-word
      stretch that a match would have covered. */
  predicate SentenceResumable(s: string, i: nat)
    requires i <= |s|
  {
    i == 0 || i == |s| || !AfterStop(s, i) || !WordAhead(s, i)
  }

  /** The whitespace run before `j` starts right after the stop at `i`. */
  lemma StopRun(s: string, i: nat, j: nat)
    requires i < |s| && IsStop(s[i]) && j == SkipSpace(s, i + 1) && j < |s|
    ensures AfterStop(s, j)
  {
    var r := RunStart(s, j);
    Plain(s[i]);
  }

  /** The scan may always resume right after a word character. */
  lemma ResumeAfterWord(s: string, k: nat)
    requires k < |s| && IsWordChar(s[k])
    ensures SentenceResumable(s, k + 1)
  {
    Plain(s[k]);
    assert RunStart(s, k + 1) == k + 1;
  }

  lemma SentenceMatchChar(s: string, i: nat, k: nat)
    requires i < |s| && SentenceMatchEnd(s, i) > i && i <= k < SentenceMatchEnd(s, i)
    ensures SentenceMarked(s)[k] == ToUpperChar(s[k])
  {
    if k < SentenceMatchEnd(s, i) - 1 {
      Plain(s[k]);
    } else if k > 0 {
      Plain(s[i]);
      StopRun(s, i, k);
    }
  }

  /** A match is upper-cased as the reference marks it. */
  lemma SentenceMatchMarks(s: string, i: nat)
    requires i < |s| && SentenceMatchEnd(s, i) > i
    ensures ToUpper(s[i..SentenceMatchEnd(s, i)]) == SentenceMarked(s)[i..SentenceMatchEnd(s, i)]
    ensures SentenceResumable(s, SentenceMatchEnd(s, i))
  {
    var e := SentenceMatchEnd(s, i);
    forall k | i <= k < e
      ensures ToUpper(s[i..e])[k - i] == SentenceMarked(s)[k]
    {
      SentenceMatchChar(s, i, k);
    }
    ResumeAfterWord(s, e - 1);
  }

  /** Where nothing matches, the character is one the reference leaves alone,
      and the scan may resume after it. */
  lemma SentenceMissMarks(s: string, i: nat)
    requires i < |s| && SentenceResumable(s, i) && SentenceMatchEnd(s, i) == i
    ensures SentenceMarked(s)[i] == s[i]
    ensures SentenceResumable(s, i + 1)
  {
    Plain(s[i]);
    if IsWordChar(s[i]) {
      assert SkipSpace(s, i) == i;
    }
    if i + 1 < |s| {
      if IsSpace(s[i]) {
        assert RunStart(s, i + 1) == RunStart(s, i);
        assert SkipSpace(s, i) == SkipSpace(s, i + 1);
      } else {
        assert RunStart(s, i + 1) == i + 1;
      }
    }
  }

  /** The regex scan capitalises exactly the characters the reference marks. */
  lemma {:induction false} SentenceScanMarks(s: string, i: nat)
    requires i <= |s| && SentenceResumable(s, i)
    ensures SentenceScan(s, i) == SentenceMarked(s)[i..]
    decreases |s| - i
  {
    if i < |s| {
      var e := SentenceMatchEnd(s, i);
      if e > i {
        SentenceMatchMarks(s, i);
        SentenceScanMarks(s, e);
        SliceSplit(SentenceMarked(s), i, e);
      } else {
        SentenceMissMarks(s, i);
        SentenceScanMarks(s, i + 1);
        SliceSplit(SentenceMarked(s), i, i + 1);
        assert SentenceMarked(s)[i..i + 1] == [s[i]];
      }
    }
  }

  /** `wordChangeSentenceCase`: lower-case, then capitalise the first word
      character of the string and the first one after each `.`, `!` or `?`
      (past any whitespace). */
  function SentenceCase(word: string): (r: string)
    ensures |r| == |word|
    ensures forall k :: 0 <= k < |word| ==>
              r[k] == (if SentenceStart(ToLower(word), k) then ToUpperChar(ToLowerChar(word[k])) else ToLowerChar(word[k]))
  {
    SentenceScanMarks(ToLower(word), 0);
    SentenceScan(ToLower(word), 0)
  }

  /** Applying the sentence-case rewrite twice is the same as once. */
  lemma SentenceCaseIdempotent(word: string)
    ensures SentenceCase(SentenceCase(word)) == SentenceCase(word)
  {
    LowerOfCased(word, SentenceCase(word));
  }

  /** A string that differs from the lower-cased `word` only by capitals
      lower-cases back to it. */
  lemma LowerOfCased(word: string, cased: string)
    requires |cased| == |word|
    requires forall k :: 0 <= k < |word| ==>
               cased[k] == ToLowerChar(word[k]) || cased[k] == ToUpperChar(ToLowerChar(word[k]))
    ensures ToLower(cased) == ToLower(word)
  {
  }

  lemma LowerIdempotent(s: string)
    ensures ToLower(ToLower(s)) == ToLower(s)
  {
    LowerOfCased(s, ToLower(s));
  }

  // ---------------------------------------------------------------- bodies

  /** A date field: the string the client sent, or the `new Date(...)` built
      from it (parsing itself is not modelled; the object keeps its source). */
  datatype DateField = Sent(text: string) | Built(text: string)

  /** Truthiness of a date field: a non-empty string, or any Date object. */
  predicate DatePresent(d: Option<DateField>)
  {
    d.Some? && (d.value.Built? || d.value.text != "")
  }

  /** The body fields the normaliser reads, as one value. */
  datatype Fields = Fields(email: Option<string>, firstName: Option<string>, lastName: Option<string>,
                           fullName: Option<string>, userName: Option<string>, title: Option<string>,
                           notes: Option<seq<string>>, note: Option<string>, description: Option<string>,
                           dueDate: Option<DateField>, startDate: Option<DateField>, endDate: Option<DateField>)

  function Lowered(v: Option<string>): (r: Option<string>)
    ensures !Present(v) ==> r == v
    ensures Present(v) ==> Present(r) && r.value == ToLower(v.value)
  {
    if Present(v) then Some(ToLower(v.value)) else v
  }

  function Titled(v: Option<string>): (r: Option<string>)
    ensures !Present(v) ==> r == v
    ensures Present(v) ==> Present(r) && |r.value| == |v.value|
  {
    if Present(v) then Some(TitleCase(v.value)) else v
  }

  function Sentenced(v: Option<string>): (r: Option<string>)
    ensures !Present(v) ==> r == v
    ensures Present(v) ==> Present(r) && |r.value| == |v.value|
  {
    if Present(v) then Some(SentenceCase(v.value)) else v
  }

  function Dated(d: Option<DateField>): (r: Option<DateField>)
    ensures !DatePresent(d) ==> r == d
    ensures DatePresent(d) ==> r == Some(Built(d.value.text))
  {
    if DatePresent(d) then Some(Built(d.value.text)) else d
  }

  /** A non-empty notes array is sentence-cased element by element. */
  function SentencedNotes(v: Option<seq<string>>): (r: Option<seq<string>>)
    ensures v.None? || v.value == [] ==> r == v
    ensures v.Some? && v.value != [] ==>
              r.Some? && |r.value| == |v.value| && forall k :: 0 <= k < |v.value| ==> r.value[k] == SentenceCase(v.value[k])
  {
    if v.Some? && |v.value| > 0 then Some(seq(|v.value|, k requires 0 <= k < |v.value| => SentenceCase(v.value[k])))
    else v
  }

  /** What `touchArray` makes of one element of an array body. */
  function ArrayTouched(f: Fields): (r: Fields)
    ensures r.notes == f.notes && r.note == f.note
  {
    f.(email := Lowered(f.email), firstName := Titled(f.firstName), lastName := Titled(f.lastName),
       fullName := Titled(f.fullName), userName := Titled(f.userName), title := Sentenced(f.title),
       description := Sentenced(f.description),
       dueDate := Dated(f.dueDate), startDate := Dated(f.startDate), endDate := Dated(f.endDate))
  }

  /** What `touchObject` makes of an object body: the same, and the notes too. */
  function ObjectTouched(f: Fields): (r: Fields)
    ensures r == ArrayTouched(f).(notes := SentencedNotes(f.notes), note := Sentenced(f.note))
  {
    Fields(Lowered(f.email), Titled(f.firstName), Titled(f.lastName), Titled(f.fullName),
           Titled(f.userName), Sentenced(f.title), SentencedNotes(f.notes), Sentenced(f.note),
           Sentenced(f.description), Dated(f.dueDate), Dated(f.startDate), Dated(f.endDate))
  }

  lemma TitledIdempotent(v: Option<string>)
    ensures Titled(Titled(v)) == Titled(v)
  {
    if Present(v) {
      TitleCaseIdempotent(v.value);
    }
  }

  lemma SentencedIdempotent(v: Option<string>)
    ensures Sentenced(Sentenced(v)) == Sentenced(v)
  {
    if Present(v) {
      SentenceCaseIdempotent(v.value);
    }
  }

  /** Normalising an array element a second time changes nothing. */
  lemma ArrayTouchIdempotent(f: Fields)
    ensures ArrayTouched(ArrayTouched(f)) == ArrayTouched(f)
  {
    if Present(f.email) {
      LowerIdempotent(f.email.value);
    }
    TitledIdempotent(f.firstName);
    TitledIdempotent(f.lastName);
    TitledIdempotent(f.fullName);
    TitledIdempotent(f.userName);
    SentencedIdempotent(f.title);
    SentencedIdempotent(f.description);
  }

  /** Normalising an object body a second time changes nothing. */
  lemma ObjectTouchIdempotent(f: Fields)
    ensures ObjectTouched(ObjectTouched(f)) == ObjectTouched(f)
  {
    ArrayTouchIdempotent(f);
    SentencedIdempotent(f.note);
    if f.notes.Some? && f.notes.value != [] {
      var once := SentencedNotes(f.notes).value;
      assert once != [];
      forall k | 0 <= k < |once|
        ensures SentenceCase(once[k]) == once[k]
      {
        SentenceCaseIdempotent(f.notes.value[k]);
      }
      assert SentencedNotes(Some(once)).value == once;
    }
  }

  /** A parsed JSON object of a request body, whose fields the normaliser
      overwrites. */
  class BodyObject {
    var email: Option<string>
    var firstName: Option<string>
    var lastName: Option<string>
    var fullName: Option<string>
    var userName: Option<string>
    var title: Option<string>
    var notes: Option<seq<string>>
    var note: Option<string>
    var description: Option<string>
    var dueDate: Option<DateField>
    var startDate: Option<DateField>
    var endDate: Option<DateField>

    constructor (f: Fields)
      ensures Snapshot() == f
    {
      email, firstName, lastName, fullName := f.email, f.firstName, f.lastName, f.fullName;
      userName, title, notes, note := f.userName, f.title, f.notes, f.note;
      description, dueDate, startDate, endDate := f.description, f.dueDate, f.startDate, f.endDate;
    }

    function Snapshot(): Fields
      reads this
    {
      Fields(email, firstName, lastName, fullName, userName, title, notes, note, description,
             dueDate, startDate, endDate)
    }

    /** The ten overwrites `touchArray` and `touchObject` share; each field
        is rewritten only when it is truthy. */
    method TouchCommon()
      modifies this
      ensures email == Lowered(old(email)) && firstName == Titled(old(firstName))
      ensures lastName == Titled(old(lastName)) && fullName == Titled(old(fullName))
      ensures userName == Titled(old(userName)) && title == Sentenced(old(title))
      ensures description == Sentenced(old(description)) && dueDate == Dated(old(dueDate))
      ensures startDate == Dated(old(startDate)) && endDate == Dated(old(endDate))
      ensures notes == old(notes) && note == old(note)
    {
      email := Lowered(email);
      firstName := Titled(firstName);
      lastName := Titled(lastName);
      fullName := Titled(fullName);
      userName := Titled(userName);
      title := Sentenced(title);
      description := Sentenced(description);
      dueDate := Dated(dueDate);
      startDate := Dated(startDate);
      endDate := Dated(endDate);
    }

    /** `touchArray`: the element's fields, normalised in place. */
    method TouchArray()
      modifies this
      ensures Snapshot() == ArrayTouched(old(Snapshot()))
    {
      TouchCommon();
    }

    /** `touchObject`: the body's fields, and its notes, normalised in place;
        a non-empty notes array is rewritten element by element. */
    method TouchObject()
      modifies this
      ensures Snapshot() == ObjectTouched(old(Snapshot()))
    {
      TouchCommon();
      if notes.Some? && |notes.value| > 0 {
        var given := notes.value;
        var i := 0;
        var cased: seq<string> := [];
        while i < |given|
          invariant 0 <= i <= |given|
          invariant cased == seq(i, k requires 0 <= k < i => SentenceCase(given[k]))
        {
          cased := cased + [SentenceCase(given[i])];
          i := i + 1;
        }
        notes := Some(cased);
      }
      note := Sentenced(note);
    }
  }

  /** A request body: a JSON array of objects, or one object. */
  datatype Payload = Items(items: seq<BodyObject>) | Single(obj: BodyObject)

  function Objects(p: Payload): seq<BodyObject>
  {
    match p
    case Items(items) => items
    case Single(o) => [o]
  }

  /** What the request normaliser makes of one object of the body. */
  function Normalised(httpMethod: string, p: Payload, f: Fields): (r: Fields)
    ensures httpMethod != "POST" ==> r == f
    ensures httpMethod == "POST" && p.Items? ==> r == ArrayTouched(f)
    ensures httpMethod == "POST" && p.Single? ==> r == ObjectTouched(f)
  {
    if httpMethod != "POST" then f
    else if p.Items? then ArrayTouched(f)
    else ObjectTouched(f)
  }

  class Request {
    var httpMethod: string
    var body: Payload

    constructor (m: string, b: Payload)
      ensures httpMethod == m && body == b
    {
      httpMethod, body := m, b;
    }

    /** `RequestMiddleware.use`: on a POST, each element of a non-empty array
        body is normalised with `touchArray`, any other body with
        `touchObject`; other methods pass through untouched. */
    method Use()
      requires forall i, j :: 0 <= i < j < |Objects(body)| ==> Objects(body)[i] != Objects(body)[j]
      modifies set o | o in Objects(body)
      ensures body == old(body) && httpMethod == old(httpMethod)
      ensures forall k :: 0 <= k < |Objects(body)| ==>
                Objects(body)[k].Snapshot() == Normalised(httpMethod, body, old(Objects(body)[k].Snapshot()))
    {
      if httpMethod == "POST" {
        match body
        case Items(items) =>
          var i := 0;
          while i < |items|
            invariant 0 <= i <= |items|
            invariant forall k :: 0 <= k < i ==> items[k].Snapshot() == ArrayTouched(old(items[k].Snapshot()))
            invariant forall k :: i <= k < |items| ==> items[k].Snapshot() == old(items[k].Snapshot())
          {
            items[i].TouchArray();
            i := i + 1;
          }
        case Single(o) =>
          o.TouchObject();
      }
    }
  }
}
