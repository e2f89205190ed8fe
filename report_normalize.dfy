/** The schema-tolerant normaliser of src/shared/report/report.utils.ts: it turns whatever JSON
    the back end returns into a fully populated ReportRequest, trying each field's keys in a
    fixed priority order and falling back to sentinels. */
module ReportNormalize {
  import opened Js
  import opened ReportTypes

  const UnknownLearner := "Unknown Learner"
  const GeneralCourse := "General Course"

  const IdKeys := ["id", "_id", "requestId", "request_id"]
  const StudentIdKeys := ["studentId", "student_id", "learnerId", "learner_id"]
  const StudentObjectIdKeys := ["id", "_id", "studentId", "student_id"]
  const LearnerObjectIdKeys := ["id", "_id", "learnerId", "learner_id"]
  const PlainIdKeys := ["id", "_id"]
  const StudentNameKeys := ["studentName", "student_name", "learnerName", "learner_name"]
  const NameKeys := ["name", "fullName", "full_name", "displayName", "display_name"]
  const FirstNameKeys := ["firstName", "first_name"]
  const LastNameKeys := ["lastName", "last_name"]
  const CourseIdKeys := ["courseId", "course_id"]
  const CourseObjectIdKeys := ["id", "_id", "courseId", "course_id"]
  const LessonIdKeys := ["lessonId", "lesson_id"]
  const LessonObjectIdKeys := ["id", "_id", "lessonId", "lesson_id"]
  const CourseNameKeys := ["courseName", "course_name"]
  const CourseObjectNameKeys := ["name", "title", "courseName", "course_name"]
  const LessonTitleKeys := ["lessonTitle", "lesson_title"]
  const LessonObjectNameKeys := ["name", "title", "lessonTitle", "lesson_title"]
  const QuizTitleKeys := ["title", "quizTitle", "quiz_title"]
  const ApprovedByKeys := ["approvedBy", "approved_by", "actionBy", "action_by"]
  const ApprovedByNameKeys := ["approvedByName", "approved_by_name", "actionByName", "action_by_name", "reviewedByName", "reviewed_by_name"]
  const ApproverNameKeys := ["name", "fullName", "full_name"]
  const CreatedAtKeys := ["createdAt", "created_at", "requestedAt", "requested_at"]
  const UpdatedAtKeys := ["updatedAt", "updated_at", "reviewedAt", "reviewed_at"]

  /** A string with no white space at either end and at least one character. */
  predicate Trimmed(s: string)
  {
    s != [] && !IsSpace(s[0]) && !IsSpace(s[|s| - 1])
  }

  /** getString: a string that is not blank, trimmed, or the text of a finite number. */
  function GetString(v: Value): (r: Option<string>)
    ensures r.Some? ==> Trimmed(r.value)
    ensures r.Some? <==> (v.Str? && Trim(v.s) != "") || (v.Number? && v.n.Finite?)
    ensures v.Str? && r.Some? ==> r.value == Trim(v.s)
  {
    match v
    case Str(s) => var t := Trim(s); if t != "" then Some(t) else None
    case Number(n) => if n.Finite? then DecimalTextTrimmed(n.d); Some(DecimalText(n.d)) else None
    case _ => None
  }

  /** The text of a number starts with a sign or a digit and ends with a digit. */
  lemma DecimalTextTrimmed(d: Decimal)
    ensures Trimmed(DecimalText(d))
  {
    var t := DecimalText(d);
    SignOrDigitNotSpace(t[0]);
    SignOrDigitNotSpace(t[|t| - 1]);
  }

  lemma SignOrDigitNotSpace(c: char)
    requires c == '-' || IsDigit(c)
    ensures !IsSpace(c)
  {
  }

  /** A canonical string is its own getString. */
  lemma GetStringOfTrimmed(s: string)
    requires Trimmed(s)
    ensures GetString(Str(s)) == Some(s)
  {
    TrimOfTrimmed(s);
  }

  /** pickString: the usable string under the first key, in order, that holds one. */
  function PickString(record: Value, keys: seq<string>): (r: Option<string>)
    ensures r.Some? ==> Trimmed(r.value)
  {
    if keys == [] then None
    else
      var here := GetString(Get(record, keys[0]));
      if here.Some? then here else PickString(record, keys[1..])
  }

  /** The loop of pickString: returns as soon as a key holds a usable string. */
  method FindString(record: Value, keys: seq<string>) returns (r: Option<string>)
    ensures r == PickString(record, keys)
  {
    var i := 0;
    while i < |keys|
      invariant 0 <= i <= |keys|
      invariant PickString(record, keys) == PickString(record, keys[i..])
    {
      var value := GetString(Get(record, keys[i]));
      if value.Some? {
        return value;
      }
      assert keys[i..][1..] == keys[i + 1..];
      i := i + 1;
    }
    return None;
  }

  /** The position of the first key under which the record holds a usable string, or |keys|. */
  function FirstUsable(record: Value, keys: seq<string>): (k: nat)
    ensures k <= |keys|
    ensures k < |keys| ==> GetString(Get(record, keys[k])).Some?
    ensures forall j :: 0 <= j < k ==> GetString(Get(record, keys[j])).None?
  {
    FirstWhere(keys, (key: string) => GetString(Get(record, key)).Some?)
  }

  /** pickString yields the value under the first key that holds a usable string, and nothing
      when there is no such key. */
  lemma {:induction false} PickStringFirstMatch(record: Value, keys: seq<string>)
    ensures var k := FirstUsable(record, keys);
      PickString(record, keys) == if k < |keys| then GetString(Get(record, keys[k])) else None
  {
    if keys != [] && GetString(Get(record, keys[0])).None? {
      PickStringFirstMatch(record, keys[1..]);
      var k := FirstUsable(record, keys[1..]);
      if k < |keys| - 1 {
        assert keys[1..][k] == keys[k + 1];
      }
    }
  }

  /** pickString finds nothing exactly when no key holds a usable string. */
  lemma {:induction false} PickStringNoneExactly(record: Value, keys: seq<string>)
    ensures PickString(record, keys).None? <==>
      forall i :: 0 <= i < |keys| ==> GetString(Get(record, keys[i])).None?
  {
    if keys != [] {
      var tail := keys[1..];
      PickStringNoneExactly(record, tail);
      assert forall i :: 1 <= i < |keys| ==> keys[i] == tail[i - 1];
    }
  }

  /** With none of the keys present, pickString finds nothing. */
  lemma {:induction false} PickStringAbsent(record: Value, keys: seq<string>)
    requires forall i :: 0 <= i < |keys| ==> Get(record, keys[i]).Undefined?
    ensures PickString(record, keys) == None
  {
    if keys != [] {
      PickStringAbsent(record, keys[1..]);
    }
  }

  /** One place a field may be read from: a record and the keys tried on it, in order. */
  datatype Source = Source(record: Value, keys: seq<string>)

  function Pick(source: Source): Option<string>
  {
    PickString(source.record, source.keys)
  }

  predicate Yields(source: Source)
  {
    Pick(source).Some?
  }

  /** The position of the first source that yields a usable string, or |sources|. */
  function FirstSource(sources: seq<Source>): (k: nat)
    ensures k <= |sources|
    ensures k < |sources| ==> Pick(sources[k]).Some?
    ensures forall j :: 0 <= j < k ==> Pick(sources[j]).None?
  {
    FirstWhere(sources, Yields)
  }

  /** `pickString(a, keysA) || pickString(b, keysB) || ...`: what the first source that yields
      anything yields, else nothing. */
  function FirstPick(sources: seq<Source>): (r: Option<string>)
    ensures var k := FirstSource(sources);
      r == if k < |sources| then Pick(sources[k]) else None
  {
    if sources == [] then None
    else if Pick(sources[0]).Some? then Pick(sources[0])
    else
      var k := FirstSource(sources[1..]);
      assert k < |sources| - 1 ==> sources[1..][k] == sources[k + 1];
      FirstPick(sources[1..])
  }

  /** A chain of two sources, written as `a || b`. */
  lemma FirstPickOfTwo(s: seq<Source>)
    requires |s| == 2
    ensures FirstPick(s) == Pick(s[0]).OrElse(Pick(s[1]))
  {
    assert s[0..] == s;
    FirstPickStep(s, 0); FirstPickStep(s, 1);
    assert s[2..] == [];
  }

  /** A chain of eight sources, written as `a || b || ...`. */
  lemma FirstPickOfEight(s: seq<Source>)
    requires |s| == 8
    ensures FirstPick(s) == Pick(s[0]).OrElse(Pick(s[1])).OrElse(Pick(s[2])).OrElse(Pick(s[3]))
      .OrElse(Pick(s[4])).OrElse(Pick(s[5])).OrElse(Pick(s[6])).OrElse(Pick(s[7]))
  {
    assert s[0..] == s;
    FirstPickStep(s, 0); FirstPickStep(s, 1); FirstPickStep(s, 2); FirstPickStep(s, 3);
    FirstPickStep(s, 4); FirstPickStep(s, 5); FirstPickStep(s, 6); FirstPickStep(s, 7);
    assert s[8..] == [];
  }

  /** A chain of nine sources, written as `a || b || ...`. */
  lemma FirstPickOfNine(s: seq<Source>)
    requires |s| == 9
    ensures FirstPick(s) == Pick(s[0]).OrElse(Pick(s[1])).OrElse(Pick(s[2])).OrElse(Pick(s[3]))
      .OrElse(Pick(s[4])).OrElse(Pick(s[5])).OrElse(Pick(s[6])).OrElse(Pick(s[7])).OrElse(Pick(s[8]))
  {
    assert s[0..] == s;
    FirstPickStep(s, 0); FirstPickStep(s, 1); FirstPickStep(s, 2); FirstPickStep(s, 3);
    FirstPickStep(s, 4); FirstPickStep(s, 5); FirstPickStep(s, 6); FirstPickStep(s, 7);
    FirstPickStep(s, 8);
    assert s[9..] == [];
  }

  /** One step of the chain: the source at `i`, else the sources after it. */
  lemma FirstPickStep(sources: seq<Source>, i: nat)
    requires i < |sources|
    ensures FirstPick(sources[i..]) == Pick(sources[i]).OrElse(FirstPick(sources[i + 1..]))
  {
    assert sources[i..][0] == sources[i];
    assert sources[i..][1..] == sources[i + 1..];
  }

  /** buildName: a direct name field, else "first last" trimmed, else nothing. */
  function BuildName(record: Value): (r: Option<string>)
    ensures PickString(record, NameKeys).Some? ==> r == PickString(record, NameKeys)
    ensures r.Some? ==> Trimmed(r.value)
    ensures r.None? <==> PickString(record, NameKeys).None? && PickString(record, FirstNameKeys).None?
                         && PickString(record, LastNameKeys).None?
  {
    var direct := PickString(record, NameKeys);
    if direct.Some? then direct
    else
      var first := PickString(record, FirstNameKeys).GetOr("");
      var last := PickString(record, LastNameKeys).GetOr("");
      var full := Trim(first + " " + last);
      JoinedBlank(first, last);
      if full != "" then Some(full) else None
  }

  /** "first last" trims to nothing exactly when both parts are empty. */
  lemma JoinedBlank(first: string, last: string)
    requires first == "" || Trimmed(first)
    requires last == "" || Trimmed(last)
    ensures Trim(first + " " + last) == "" <==> first == "" && last == ""
  {
    var joined := first + " " + last;
    if first != "" {
      assert joined[0] == first[0];
    } else if last != "" {
      assert joined[1] == last[0];
    } else {
      assert joined == " ";
    }
  }

  /** normalizeRequestStatus: the upper-cased trimmed text when it names a status, else PENDING. */
  function NormalizeRequestStatus(v: Value): (r: Status)
    ensures r != Pending ==> GetString(v).Some? && ToUpper(GetString(v).value) == StatusName(r)
    ensures GetString(v).Some? && ToUpper(GetString(v).value) == "APPROVED" ==> r == Approved
    ensures GetString(v).Some? && ToUpper(GetString(v).value) == "REJECTED" ==> r == Rejected
    ensures GetString(v).None? ==> r == Pending
  {
    var text := GetString(v);
    if text.None? then Pending
    else
      var u := ToUpper(text.value);
      if u == "APPROVED" then Approved
      else if u == "REJECTED" then Rejected
      else Pending
  }

  /** normalizeApproverRole: ADMIN or INSTRUCTOR after trimming and upper-casing, else null. */
  function NormalizeApproverRole(v: Value): (r: Option<Role>)
    ensures r.Some? ==> GetString(v).Some? && ToUpper(GetString(v).value) == RoleName(r.value)
    ensures GetString(v).Some? && ToUpper(GetString(v).value) == "ADMIN" ==> r == Some(Admin)
    ensures GetString(v).Some? && ToUpper(GetString(v).value) == "INSTRUCTOR" ==> r == Some(Instructor)
  {
    var text := GetString(v);
    if text.None? then None
    else
      var u := ToUpper(text.value);
      if u == "ADMIN" then Some(Admin)
      else if u == "INSTRUCTOR" then Some(Instructor)
      else None
  }

  predicate NoLowerCase(s: string)
  {
    forall i :: 0 <= i < |s| ==> 'A' <= s[i] <= 'Z'
  }

  lemma {:induction false} ToUpperOfUpper(s: string)
    requires NoLowerCase(s)
    ensures ToUpper(s) == s
  {
    if s != [] {
      ToUpperOfUpper(s[1..]);
    }
  }

  /** An upper-case trimmed name is its own getString and its own upper case. */
  lemma UpperNameNormalises(n: string)
    requires Trimmed(n) && NoLowerCase(n)
    ensures GetString(Str(n)) == Some(n) && ToUpper(n) == n
  {
    GetStringOfTrimmed(n);
    ToUpperOfUpper(n);
  }

  /** A text whose upper case is a status's name normalises to that status. */
  lemma StatusFromUpper(v: Value, st: Status)
    requires GetString(v).Some? && ToUpper(GetString(v).value) == StatusName(st)
    ensures NormalizeRequestStatus(v) == st
  {
    var n := StatusName(st);
    if st == Pending {
      assert n[0] == 'P';
    }
  }

  /** A status's name is trimmed and upper case. */
  lemma StatusNameCanonical(s: Status)
    ensures Trimmed(StatusName(s)) && GetString(Str(StatusName(s))) == Some(StatusName(s))
    ensures ToUpper(StatusName(s)) == StatusName(s)
  {
    var n := StatusName(s);
    assert Trimmed(n) && NoLowerCase(n);
    UpperNameNormalises(n);
  }

  /** Normalising a status's own name gives the status back. */
  lemma StatusNameRoundTrip(s: Status)
    ensures NormalizeRequestStatus(Str(StatusName(s))) == s
  {
    StatusNameCanonical(s);
    StatusFromUpper(Str(StatusName(s)), s);
  }

  /** Normalising a role's own name gives the role back. */
  lemma RoleNameRoundTrip(r: Role)
    ensures NormalizeApproverRole(Str(RoleName(r))) == Some(r)
  {
    var n := RoleName(r);
    assert Trimmed(n) && NoLowerCase(n);
    UpperNameNormalises(n);
  }

  /** Status matching ignores case: the lower-case spelling of a status's name normalises to
      that status. */
  lemma StatusIgnoresCase(s: string, st: Status)
    requires |s| == |StatusName(st)|
    requires forall i :: 0 <= i < |s| ==> 'a' <= s[i] <= 'z' && s[i] as int - 32 == StatusName(st)[i] as int
    ensures NormalizeRequestStatus(Str(s)) == st
  {
    LowerSpelling(s, StatusName(st));
    StatusFromUpper(Str(s), st);
  }

  /** A non-empty lower-case spelling of `n` is its own getString and upper-cases to `n`. */
  lemma LowerSpelling(s: string, n: string)
    requires |s| == |n| > 0
    requires forall i :: 0 <= i < |s| ==> 'a' <= s[i] <= 'z' && s[i] as int - 32 == n[i] as int
    ensures GetString(Str(s)) == Some(s) && ToUpper(s) == n
  {
    UpperOfLower(s, n);
    assert Trimmed(s) by {
      assert 'a' <= s[0] <= 'z' && 'a' <= s[|s| - 1] <= 'z';
    }
    GetStringOfTrimmed(s);
  }

  lemma UpperOfLower(s: string, n: string)
    requires |s| == |n|
    requires forall i :: 0 <= i < |s| ==> 'a' <= s[i] <= 'z' && s[i] as int - 32 == n[i] as int
    ensures ToUpper(s) == n
  {
    ToUpperLetters(s);
    var u := ToUpper(s);
    forall i | 0 <= i < |s| ensures u[i] == n[i] {
    }
  }

  /** Status matching ignores surrounding white space: any text that trims to a status's name
      normalises to that status. */
  lemma StatusIgnoresSpace(s: string, st: Status)
    requires Trim(s) == StatusName(st)
    ensures NormalizeRequestStatus(Str(s)) == st
  {
    StatusNameCanonical(st);
    assert GetString(Str(s)) == Some(StatusName(st));
    StatusFromUpper(Str(s), st);
  }

  // ---------------------------------------------------------------------------------------
  // The fields of normalizeReportRequest

  /** An id field: empty when unresolved, otherwise trimmed. */
  predicate IdText(s: string)
  {
    s == "" || Trimmed(s)
  }

  predicate OptTrimmed(o: Option<string>)
  {
    o.None? || Trimmed(o.value)
  }

  /** The requests the normaliser can produce: every string trimmed, names never empty. */
  predicate Canonical(r: ReportRequest)
  {
    && IdText(r.id) && IdText(r.studentId) && IdText(r.courseId)
    && Trimmed(r.studentName) && Trimmed(r.courseName)
    && OptTrimmed(r.approvedBy) && OptTrimmed(r.approvedByName)
    && OptTrimmed(r.createdAt) && OptTrimmed(r.updatedAt)
  }

  function ResolveId(record: Value): (r: string)
    ensures IdText(r)
  {
    PickString(record, IdKeys).GetOr("")
  }

  function StudentFromId(record: Value): Value
  {
    Coalesce(Get(record, "studentId"), Get(record, "student_id"))
  }

  function LearnerFromId(record: Value): Value
  {
    Coalesce(Get(record, "learnerId"), Get(record, "learner_id"))
  }

  function RequestedBy(record: Value): Value
  {
    Coalesce(Get(record, "requestedBy"), Get(record, "requested_by"))
  }

  function CreatedBy(record: Value): Value
  {
    Coalesce(Get(record, "createdBy"), Get(record, "created_by"))
  }

  function CourseFromId(record: Value): Value
  {
    Coalesce(Get(record, "courseId"), Get(record, "course_id"))
  }

  function LessonFromId(record: Value): Value
  {
    Coalesce(Get(record, "lessonId"), Get(record, "lesson_id"))
  }

  /** The student id is what the first source that yields an id yields: the direct fields
      before every nested object, `student` before `learner`, and so on; '' when none does. */
  function ResolveStudentId(record: Value): (r: string)
    ensures IdText(r)
    ensures var s := StudentIdSources(record); var k := FirstSource(s);
      r == if k < |s| then Pick(s[k]).value else ""
  {
    FirstPickOfEight(StudentIdSources(record));
    PickString(record, StudentIdKeys)
      .OrElse(PickString(Get(record, "student"), StudentObjectIdKeys))
      .OrElse(PickString(Get(record, "learner"), LearnerObjectIdKeys))
      .OrElse(PickString(StudentFromId(record), StudentObjectIdKeys))
      .OrElse(PickString(LearnerFromId(record), LearnerObjectIdKeys))
      .OrElse(PickString(Get(record, "user"), PlainIdKeys))
      .OrElse(PickString(RequestedBy(record), PlainIdKeys))
      .OrElse(PickString(CreatedBy(record), PlainIdKeys))
      .GetOr("")
  }

  /** Where the student id is looked for, in priority order. */
  function StudentIdSources(record: Value): seq<Source>
  {
    [Source(record, StudentIdKeys), Source(Get(record, "student"), StudentObjectIdKeys),
     Source(Get(record, "learner"), LearnerObjectIdKeys), Source(StudentFromId(record), StudentObjectIdKeys),
     Source(LearnerFromId(record), LearnerObjectIdKeys), Source(Get(record, "user"), PlainIdKeys),
     Source(RequestedBy(record), PlainIdKeys), Source(CreatedBy(record), PlainIdKeys)]
  }

  /** The nested person objects a learner's name may be composed from, in priority order. */
  function PersonObjects(record: Value): seq<Value>
  {
    [Get(record, "student"), Get(record, "learner"), StudentFromId(record), LearnerFromId(record),
     Get(record, "user"), RequestedBy(record), CreatedBy(record)]
  }

  predicate Named(v: Value)
  {
    BuildName(v).Some?
  }

  /** The position of the first object a name can be built from, or |objects|. */
  function FirstNamed(objects: seq<Value>): (k: nat)
    ensures k <= |objects|
    ensures k < |objects| ==> BuildName(objects[k]).Some?
    ensures forall j :: 0 <= j < k ==> BuildName(objects[j]).None?
  {
    FirstWhere(objects, Named)
  }

  /** `buildName(a) || buildName(b) || ...`: the name built from the first object that yields
      one. */
  function FirstBuiltName(objects: seq<Value>): (r: Option<string>)
    ensures r.Some? ==> Trimmed(r.value)
    ensures var k := FirstNamed(objects); r == if k < |objects| then BuildName(objects[k]) else None
  {
    if objects == [] then None
    else
      var k := FirstNamed(objects[1..]);
      assert k < |objects| - 1 ==> objects[1..][k] == objects[k + 1];
      BuildName(objects[0]).OrElse(FirstBuiltName(objects[1..]))
  }

  lemma {:induction false} FirstBuiltNameNonObjects(objects: seq<Value>)
    requires forall i :: 0 <= i < |objects| ==> !objects[i].Obj?
    ensures FirstBuiltName(objects) == None
  {
    if objects != [] {
      BuildNameNonObject(objects[0]);
      FirstBuiltNameNonObjects(objects[1..]);
    }
  }

  /** An explicit or composed learner name, before the id and sentinel fallbacks: the explicit
      name fields, else the first person object a name can be built from; a name found either
      way is trimmed, so non-empty. */
  function StudentNameSource(record: Value): (r: Option<string>)
    ensures var explicit := PickString(record, StudentNameKeys);
      var objects := PersonObjects(record); var k := FirstNamed(objects);
      r == if explicit.Some? then explicit else if k < |objects| then BuildName(objects[k]) else None
    ensures OptTrimmed(r)
  {
    PickString(record, StudentNameKeys).OrElse(FirstBuiltName(PersonObjects(record)))
  }

  /** The learner's name: an explicit name field first; else the name built from the first
      person object that yields one, in the order of PersonObjects; else the student id; else
      "Unknown Learner". */
  function ResolveStudentName(record: Value, studentId: string): (r: string)
    ensures IdText(studentId) ==> Trimmed(r)
    ensures var explicit := PickString(record, StudentNameKeys);
      var objects := PersonObjects(record); var k := FirstNamed(objects);
      r == if explicit.Some? then explicit.value
           else if k < |objects| then BuildName(objects[k]).value
           else if studentId != "" then studentId
           else UnknownLearner
  {
    var name := StudentNameSource(record);
    if name.Some? then name.value
    else if studentId != "" then studentId
    else UnknownLearner
  }

  /** The course id is what the first source of CourseIdSources that yields an id yields; ''
      when none does. */
  function ResolveCourseId(record: Value): (r: string)
    ensures IdText(r)
    ensures var s := CourseIdSources(record); var k := FirstSource(s);
      r == if k < |s| then Pick(s[k]).value else ""
  {
    FirstPickOfEight(CourseIdSources(record));
    var quiz := Get(record, "quiz");
    PickString(record, CourseIdKeys)
      .OrElse(PickString(Get(record, "course"), CourseObjectIdKeys))
      .OrElse(PickString(CourseFromId(record), CourseObjectIdKeys))
      .OrElse(PickString(record, LessonIdKeys))
      .OrElse(PickString(Get(record, "lesson"), LessonObjectIdKeys))
      .OrElse(PickString(LessonFromId(record), LessonObjectIdKeys))
      .OrElse(PickString(Get(quiz, "lesson"), LessonObjectIdKeys))
      .OrElse(PickString(Get(quiz, "course"), CourseObjectIdKeys))
      .GetOr("")
  }

  /** Where the course id is looked for, in priority order: course fields, then lesson fields,
      then the quiz's lesson and course. */
  function CourseIdSources(record: Value): seq<Source>
  {
    var quiz := Get(record, "quiz");
    [Source(record, CourseIdKeys), Source(Get(record, "course"), CourseObjectIdKeys),
     Source(CourseFromId(record), CourseObjectIdKeys), Source(record, LessonIdKeys),
     Source(Get(record, "lesson"), LessonObjectIdKeys), Source(LessonFromId(record), LessonObjectIdKeys),
     Source(Get(quiz, "lesson"), LessonObjectIdKeys), Source(Get(quiz, "course"), CourseObjectIdKeys)]
  }

  /** An explicit course, lesson or quiz title, before the id and sentinel fallbacks. */
  function CourseNameSource(record: Value): Option<string>
  {
    var quiz := Get(record, "quiz");
    PickString(record, CourseNameKeys)
      .OrElse(PickString(Get(record, "course"), CourseObjectNameKeys))
      .OrElse(PickString(CourseFromId(record), CourseObjectNameKeys))
      .OrElse(PickString(record, LessonTitleKeys))
      .OrElse(PickString(Get(record, "lesson"), LessonObjectNameKeys))
      .OrElse(PickString(LessonFromId(record), LessonObjectNameKeys))
      .OrElse(PickString(Get(quiz, "lesson"), LessonObjectNameKeys))
      .OrElse(PickString(Get(quiz, "course"), CourseObjectNameKeys))
      .OrElse(PickString(quiz, QuizTitleKeys))
  }

  /** The course name is what the first source of CourseNameSources that yields a name yields;
      else the course id; else "General Course". */
  function ResolveCourseName(record: Value, courseId: string): (r: string)
    ensures IdText(courseId) ==> Trimmed(r)
    ensures var s := CourseNameSources(record); var k := FirstSource(s);
      r == if k < |s| then Pick(s[k]).value
           else if courseId != "" then courseId
           else GeneralCourse
  {
    FirstPickOfNine(CourseNameSources(record));
    var name := CourseNameSource(record);
    if name.Some? then name.value
    else if courseId != "" then courseId
    else GeneralCourse
  }

  /** Where the course name is looked for, in priority order; the quiz title comes last. */
  function CourseNameSources(record: Value): seq<Source>
  {
    var quiz := Get(record, "quiz");
    [Source(record, CourseNameKeys), Source(Get(record, "course"), CourseObjectNameKeys),
     Source(CourseFromId(record), CourseObjectNameKeys), Source(record, LessonTitleKeys),
     Source(Get(record, "lesson"), LessonObjectNameKeys), Source(LessonFromId(record), LessonObjectNameKeys),
     Source(Get(quiz, "lesson"), LessonObjectNameKeys), Source(Get(quiz, "course"), CourseObjectNameKeys),
     Source(quiz, QuizTitleKeys)]
  }

  /** The approver's id comes from the first source that yields one, the direct fields winning
      over the `approver` object; nothing when neither does. */
  function ResolveApprovedBy(record: Value): (r: Option<string>)
    ensures OptTrimmed(r)
    ensures var s := ApprovedBySources(record); var k := FirstSource(s);
      r == if k < |s| then Pick(s[k]) else None
  {
    FirstPickOfTwo(ApprovedBySources(record));
    PickString(record, ApprovedByKeys).OrElse(PickString(Get(record, "approver"), PlainIdKeys))
  }

  /** The approver's name likewise: the direct fields, then the `approver` object. */
  function ResolveApprovedByName(record: Value): (r: Option<string>)
    ensures OptTrimmed(r)
    ensures var s := ApprovedByNameSources(record); var k := FirstSource(s);
      r == if k < |s| then Pick(s[k]) else None
  {
    FirstPickOfTwo(ApprovedByNameSources(record));
    PickString(record, ApprovedByNameKeys).OrElse(PickString(Get(record, "approver"), ApproverNameKeys))
  }

  /** The approver's id: the direct fields, then the `approver` object. */
  function ApprovedBySources(record: Value): seq<Source>
  {
    [Source(record, ApprovedByKeys), Source(Get(record, "approver"), PlainIdKeys)]
  }

  /** The approver's name: the direct fields, then the `approver` object. */
  function ApprovedByNameSources(record: Value): seq<Source>
  {
    [Source(record, ApprovedByNameKeys), Source(Get(record, "approver"), ApproverNameKeys)]
  }

  /** The raw role: the first of the role fields that is not null or undefined. */
  function RawApproverRole(record: Value): Value
  {
    Coalesce(Get(record, "approvedByRole"),
    Coalesce(Get(record, "approved_by_role"),
    Coalesce(Get(record, "actionByRole"),
    Coalesce(Get(record, "action_by_role"),
    Coalesce(Get(record, "reviewedByRole"),
    Coalesce(Get(record, "reviewed_by_role"),
             Get(Get(record, "approver"), "role")))))))
  }

  /** normalizeReportRequest: a fully populated request from any value. */
  function NormalizeReportRequest(v: Value): (r: ReportRequest)
    ensures Canonical(r)
    ensures StudentNameSource(v).None? ==> r.studentName == (if r.studentId != "" then r.studentId else UnknownLearner)
    ensures CourseNameSource(v).None? ==> r.courseName == (if r.courseId != "" then r.courseId else GeneralCourse)
  {
    var studentId := ResolveStudentId(v);
    var courseId := ResolveCourseId(v);
    ReportRequest(
      id := ResolveId(v),
      studentId := studentId,
      studentName := ResolveStudentName(v, studentId),
      courseId := courseId,
      courseName := ResolveCourseName(v, courseId),
      status := NormalizeRequestStatus(Get(v, "status")),
      approvedBy := ResolveApprovedBy(v),
      approvedByName := ResolveApprovedByName(v),
      approvedByRole := NormalizeApproverRole(RawApproverRole(v)),
      createdAt := PickString(v, CreatedAtKeys),
      updatedAt := PickString(v, UpdatedAtKeys))
  }

  function OptJson(o: Option<string>): Value
  {
    if o.Some? then Str(o.value) else Null
  }

  function RoleJson(o: Option<Role>): Value
  {
    if o.Some? then Str(RoleName(o.value)) else Null
  }

  /** The JSON object the back end sends for a request already in the canonical shape. */
  function ToJson(r: ReportRequest): (v: Value)
    ensures v.Obj?
  {
    Obj(map[
      "id" := Str(r.id),
      "studentId" := Str(r.studentId),
      "studentName" := Str(r.studentName),
      "courseId" := Str(r.courseId),
      "courseName" := Str(r.courseName),
      "status" := Str(StatusName(r.status)),
      "approvedBy" := OptJson(r.approvedBy),
      "approvedByName" := OptJson(r.approvedByName),
      "approvedByRole" := RoleJson(r.approvedByRole),
      "createdAt" := OptJson(r.createdAt),
      "updatedAt" := OptJson(r.updatedAt)])
  }

  /** The keys of ToJson. */
  const JsonKeys: set<string> := {"id", "studentId", "studentName", "courseId", "courseName", "status",
    "approvedBy", "approvedByName", "approvedByRole", "createdAt", "updatedAt"}

  /** `v` reads exactly as the canonical serialisation of `r`. */
  ghost predicate Serialises(v: Value, r: ReportRequest)
  {
    && (forall k :: k !in JsonKeys ==> Get(v, k) == Undefined)
    && Get(v, "id") == Str(r.id)
    && Get(v, "studentId") == Str(r.studentId)
    && Get(v, "studentName") == Str(r.studentName)
    && Get(v, "courseId") == Str(r.courseId)
    && Get(v, "courseName") == Str(r.courseName)
    && Get(v, "status") == Str(StatusName(r.status))
    && Get(v, "approvedBy") == OptJson(r.approvedBy)
    && Get(v, "approvedByName") == OptJson(r.approvedByName)
    && Get(v, "approvedByRole") == RoleJson(r.approvedByRole)
    && Get(v, "createdAt") == OptJson(r.createdAt)
    && Get(v, "updatedAt") == OptJson(r.updatedAt)
  }

  // The keys normalizeReportRequest reads that the serialisation does not write, each fact
  // proved once so that the round-trip lemmas below need not compare string constants.

  lemma PersonKeysUnwritten()
    ensures "student" !in JsonKeys && "learner" !in JsonKeys && "user" !in JsonKeys
    ensures "student_id" !in JsonKeys && "learnerId" !in JsonKeys && "learner_id" !in JsonKeys
    ensures "requestedBy" !in JsonKeys && "requested_by" !in JsonKeys
    ensures "createdBy" !in JsonKeys && "created_by" !in JsonKeys
  {
  }

  lemma CourseKeysUnwritten()
    ensures "course" !in JsonKeys && "lesson" !in JsonKeys && "quiz" !in JsonKeys
    ensures "course_id" !in JsonKeys && "lessonId" !in JsonKeys && "lesson_id" !in JsonKeys
  {
  }

  lemma ApproverKeysUnwritten()
    ensures "approver" !in JsonKeys
    ensures "approved_by_role" !in JsonKeys && "actionByRole" !in JsonKeys && "action_by_role" !in JsonKeys
    ensures "reviewedByRole" !in JsonKeys && "reviewed_by_role" !in JsonKeys
  {
  }

  /** Only the first key of each of these lists is written. */
  lemma KeyTailsUnwritten()
    ensures forall i :: 1 <= i < |IdKeys| ==> IdKeys[i] !in JsonKeys
    ensures forall i :: 1 <= i < |StudentIdKeys| ==> StudentIdKeys[i] !in JsonKeys
    ensures forall i :: 1 <= i < |CourseIdKeys| ==> CourseIdKeys[i] !in JsonKeys
    ensures forall i :: 0 <= i < |LessonIdKeys| ==> LessonIdKeys[i] !in JsonKeys
  {
  }

  lemma OptionalKeyTailsUnwritten()
    ensures forall i :: 1 <= i < |ApprovedByKeys| ==> ApprovedByKeys[i] !in JsonKeys
    ensures forall i :: 1 <= i < |ApprovedByNameKeys| ==> ApprovedByNameKeys[i] !in JsonKeys
    ensures forall i :: 1 <= i < |CreatedAtKeys| ==> CreatedAtKeys[i] !in JsonKeys
    ensures forall i :: 1 <= i < |UpdatedAtKeys| ==> UpdatedAtKeys[i] !in JsonKeys
  {
  }

  lemma ToJsonSerialises(r: ReportRequest)
    ensures Serialises(ToJson(r), r)
  {
    ToJsonKeys(r);
    ToJsonPeople(r);
    ToJsonCourse(r);
    ToJsonApproval(r);
  }

  lemma ToJsonKeys(r: ReportRequest)
    ensures forall k :: k !in JsonKeys ==> Get(ToJson(r), k) == Undefined
  {
  }

  lemma ToJsonPeople(r: ReportRequest)
    ensures Get(ToJson(r), "id") == Str(r.id)
    ensures Get(ToJson(r), "studentId") == Str(r.studentId)
    ensures Get(ToJson(r), "studentName") == Str(r.studentName)
  {
  }

  lemma ToJsonCourse(r: ReportRequest)
    ensures Get(ToJson(r), "courseId") == Str(r.courseId)
    ensures Get(ToJson(r), "courseName") == Str(r.courseName)
    ensures Get(ToJson(r), "status") == Str(StatusName(r.status))
    ensures Get(ToJson(r), "createdAt") == OptJson(r.createdAt)
  {
  }

  lemma ToJsonApproval(r: ReportRequest)
    ensures Get(ToJson(r), "approvedBy") == OptJson(r.approvedBy)
    ensures Get(ToJson(r), "approvedByName") == OptJson(r.approvedByName)
    ensures Get(ToJson(r), "approvedByRole") == RoleJson(r.approvedByRole)
    ensures Get(ToJson(r), "updatedAt") == OptJson(r.updatedAt)
  {
  }

  /** Skipping a key whose value is no usable string. */
  lemma PickSkip(v: Value, keys: seq<string>)
    requires keys != [] && GetString(Get(v, keys[0])).None?
    ensures PickString(v, keys) == PickString(v, keys[1..])
  {
  }

  /** A key list none of whose keys the serialisation writes picks nothing from it. */
  lemma PickOutsideJson(v: Value, r: ReportRequest, keys: seq<string>)
    requires Serialises(v, r)
    requires forall i :: 0 <= i < |keys| ==> keys[i] !in JsonKeys
    ensures PickString(v, keys) == None
  {
    PickStringAbsent(v, keys);
  }

  /** An id-like field, written under the first of its keys, reads back as itself. */
  lemma PickIdText(v: Value, r: ReportRequest, s: string, keys: seq<string>)
    requires Serialises(v, r)
    requires IdText(s) && keys != [] && Get(v, keys[0]) == Str(s)
    requires forall i :: 1 <= i < |keys| ==> keys[i] !in JsonKeys
    ensures PickString(v, keys) == (if s == "" then None else Some(s))
  {
    if s == "" {
      PickSkip(v, keys);
      PickOutsideJson(v, r, keys[1..]);
    } else {
      GetStringOfTrimmed(s);
    }
  }

  /** An optional field, written under the first of its keys, reads back as itself. */
  lemma PickOptional(v: Value, r: ReportRequest, o: Option<string>, keys: seq<string>)
    requires Serialises(v, r)
    requires OptTrimmed(o) && keys != [] && Get(v, keys[0]) == OptJson(o)
    requires forall i :: 1 <= i < |keys| ==> keys[i] !in JsonKeys
    ensures PickString(v, keys) == o
  {
    if o.None? {
      PickSkip(v, keys);
      PickOutsideJson(v, r, keys[1..]);
    } else {
      GetStringOfTrimmed(o.value);
    }
  }

  lemma RoundTripId(v: Value, r: ReportRequest)
    requires Serialises(v, r) && Canonical(r)
    ensures ResolveId(v) == r.id
  {
    KeyTailsUnwritten();
    PickIdText(v, r, r.id, IdKeys);
  }

  lemma RoundTripStudentId(v: Value, r: ReportRequest)
    requires Serialises(v, r) && Canonical(r)
    ensures ResolveStudentId(v) == r.studentId
  {
    KeyTailsUnwritten();
    PickIdText(v, r, r.studentId, StudentIdKeys);
    if r.studentId == "" {
      NoNestedStudent(v, r);
    }
  }

  /** The serialisation has no nested person objects to take a student id from. */
  lemma NoNestedStudent(v: Value, r: ReportRequest)
    requires Serialises(v, r)
    ensures PickString(Get(v, "student"), StudentObjectIdKeys) == None
    ensures PickString(Get(v, "learner"), LearnerObjectIdKeys) == None
    ensures PickString(StudentFromId(v), StudentObjectIdKeys) == None
    ensures PickString(LearnerFromId(v), LearnerObjectIdKeys) == None
    ensures PickString(Get(v, "user"), PlainIdKeys) == None
    ensures PickString(RequestedBy(v), PlainIdKeys) == None
    ensures PickString(CreatedBy(v), PlainIdKeys) == None
  {
    NoNestedLearner(v, r);
    NoNestedAccount(v, r);
    PickStringNonObject(StudentFromId(v), StudentObjectIdKeys);
  }

  lemma NoNestedLearner(v: Value, r: ReportRequest)
    requires Serialises(v, r)
    ensures PickString(Get(v, "student"), StudentObjectIdKeys) == None
    ensures PickString(Get(v, "learner"), LearnerObjectIdKeys) == None
    ensures PickString(LearnerFromId(v), LearnerObjectIdKeys) == None
  {
    PersonKeysUnwritten();
    assert Get(v, "student") == Undefined && Get(v, "learner") == Undefined;
    assert LearnerFromId(v) == Undefined;
    PickStringNonObject(Undefined, StudentObjectIdKeys);
    PickStringNonObject(Undefined, LearnerObjectIdKeys);
  }

  lemma NoNestedAccount(v: Value, r: ReportRequest)
    requires Serialises(v, r)
    ensures PickString(Get(v, "user"), PlainIdKeys) == None
    ensures PickString(RequestedBy(v), PlainIdKeys) == None
    ensures PickString(CreatedBy(v), PlainIdKeys) == None
  {
    PersonKeysUnwritten();
    assert Get(v, "user") == Undefined;
    assert RequestedBy(v) == Undefined && CreatedBy(v) == Undefined;
    PickStringNonObject(Undefined, PlainIdKeys);
  }

  lemma RoundTripCourseId(v: Value, r: ReportRequest)
    requires Serialises(v, r) && Canonical(r)
    ensures ResolveCourseId(v) == r.courseId
  {
    KeyTailsUnwritten();
    CourseKeysUnwritten();
    PickIdText(v, r, r.courseId, CourseIdKeys);
    if r.courseId == "" {
      PickOutsideJson(v, r, LessonIdKeys);
      assert Get(v, "course") == Undefined && Get(v, "lesson") == Undefined && Get(v, "quiz") == Undefined;
      assert LessonFromId(v) == Undefined;
      PickStringNonObject(Undefined, CourseObjectIdKeys);
      PickStringNonObject(Undefined, LessonObjectIdKeys);
      PickStringNonObject(CourseFromId(v), CourseObjectIdKeys);
    }
  }

  lemma RoundTripNames(v: Value, r: ReportRequest)
    requires Serialises(v, r) && Canonical(r)
    ensures StudentNameSource(v) == Some(r.studentName)
    ensures CourseNameSource(v) == Some(r.courseName)
  {
    GetStringOfTrimmed(r.studentName);
    GetStringOfTrimmed(r.courseName);
  }

  lemma RoundTripApproval(v: Value, r: ReportRequest)
    requires Serialises(v, r) && Canonical(r)
    ensures ResolveApprovedBy(v) == r.approvedBy
    ensures ResolveApprovedByName(v) == r.approvedByName
  {
    OptionalKeyTailsUnwritten();
    ApproverKeysUnwritten();
    PickOptional(v, r, r.approvedBy, ApprovedByKeys);
    PickOptional(v, r, r.approvedByName, ApprovedByNameKeys);
    assert Get(v, "approver") == Undefined;
    PickStringNonObject(Undefined, PlainIdKeys);
    PickStringNonObject(Undefined, ApproverNameKeys);
  }

  lemma RoundTripRole(v: Value, r: ReportRequest)
    requires Serialises(v, r)
    ensures NormalizeApproverRole(RawApproverRole(v)) == r.approvedByRole
  {
    if r.approvedByRole.Some? {
      RoleNameRoundTrip(r.approvedByRole.value);
    } else {
      ApproverKeysUnwritten();
      assert Get(v, "approved_by_role") == Undefined && Get(v, "actionByRole") == Undefined;
      assert Get(v, "action_by_role") == Undefined && Get(v, "reviewedByRole") == Undefined;
      assert Get(v, "reviewed_by_role") == Undefined && Get(v, "approver") == Undefined;
    }
  }

  lemma RoundTripStatus(v: Value, r: ReportRequest)
    requires Serialises(v, r)
    ensures NormalizeRequestStatus(Get(v, "status")) == r.status
  {
    StatusNameRoundTrip(r.status);
  }

  lemma RoundTripTimes(v: Value, r: ReportRequest)
    requires Serialises(v, r) && Canonical(r)
    ensures PickString(v, CreatedAtKeys) == r.createdAt
    ensures PickString(v, UpdatedAtKeys) == r.updatedAt
  {
    OptionalKeyTailsUnwritten();
    PickOptional(v, r, r.createdAt, CreatedAtKeys);
    PickOptional(v, r, r.updatedAt, UpdatedAtKeys);
  }

  /** Normalising a request that is already in the canonical shape gives it back unchanged. */
  lemma NormalizeCanonical(r: ReportRequest)
    requires Canonical(r)
    ensures NormalizeReportRequest(ToJson(r)) == r
  {
    var v := ToJson(r);
    ToJsonSerialises(r);
    RoundTripId(v, r);
    RoundTripStudentId(v, r);
    RoundTripCourseId(v, r);
    RoundTripNames(v, r);
    RoundTripApproval(v, r);
    RoundTripRole(v, r);
    RoundTripStatus(v, r);
    RoundTripTimes(v, r);
  }

  /** An explicit, usable `studentName` is taken as it is, whatever else the payload holds. */
  lemma ExplicitStudentNameWins(v: Value, name: string)
    requires Get(v, "studentName") == Str(name) && Trimmed(name)
    ensures NormalizeReportRequest(v).studentName == name
  {
    GetStringOfTrimmed(name);
  }

  /** Normalisation is idempotent: re-normalising its own output serialised changes nothing. */
  lemma NormalizeIdempotent(v: Value)
    ensures NormalizeReportRequest(ToJson(NormalizeReportRequest(v))) == NormalizeReportRequest(v)
  {
    NormalizeCanonical(NormalizeReportRequest(v));
  }

  /** The record every unusable payload normalises to. */
  function EmptyRequest(): ReportRequest
  {
    ReportRequest("", "", UnknownLearner, "", GeneralCourse, Pending, None, None, None, None, None)
  }

  /** A value that is not an object has no properties: nothing can be picked from it. */
  lemma {:induction false} PickStringNonObject(v: Value, keys: seq<string>)
    requires !v.Obj?
    ensures PickString(v, keys) == None
  {
    if keys != [] {
      PickStringNonObject(v, keys[1..]);
    }
  }

  lemma BuildNameNonObject(v: Value)
    requires !v.Obj?
    ensures BuildName(v) == None
  {
    PickStringNonObject(v, NameKeys);
    PickStringNonObject(v, FirstNameKeys);
    PickStringNonObject(v, LastNameKeys);
  }

  /** A value every property of which, except perhaps `id`, reads as undefined. */
  ghost predicate BlankBesideId(v: Value)
  {
    forall k :: k != "id" ==> Get(v, k) == Undefined
  }

  lemma BlankPick(v: Value, keys: seq<string>)
    requires BlankBesideId(v) && "id" !in keys
    ensures PickString(v, keys) == None
  {
    PickStringAbsent(v, keys);
  }

  lemma BlankId(v: Value)
    requires BlankBesideId(v)
    ensures ResolveId(v) == GetString(Get(v, "id")).GetOr("")
  {
    BlankPick(v, IdKeys[1..]);
  }

  lemma BlankStudentId(v: Value)
    requires BlankBesideId(v)
    ensures ResolveStudentId(v) == ""
  {
    BlankPick(v, StudentIdKeys);
    PickStringNonObject(Undefined, StudentObjectIdKeys);
    PickStringNonObject(Undefined, LearnerObjectIdKeys);
    PickStringNonObject(Undefined, PlainIdKeys);
  }

  lemma BlankCourseId(v: Value)
    requires BlankBesideId(v)
    ensures ResolveCourseId(v) == ""
  {
    BlankPick(v, CourseIdKeys);
    BlankPick(v, LessonIdKeys);
    PickStringNonObject(Undefined, CourseObjectIdKeys);
    PickStringNonObject(Undefined, LessonObjectIdKeys);
  }

  lemma BlankStudentName(v: Value)
    requires BlankBesideId(v)
    ensures StudentNameSource(v) == None
  {
    BlankPick(v, StudentNameKeys);
    FirstBuiltNameNonObjects(PersonObjects(v));
  }

  lemma BlankCourseName(v: Value)
    requires BlankBesideId(v)
    ensures CourseNameSource(v) == None
  {
    BlankPick(v, CourseNameKeys);
    BlankPick(v, LessonTitleKeys);
    PickStringNonObject(Undefined, CourseObjectNameKeys);
    PickStringNonObject(Undefined, LessonObjectNameKeys);
    PickStringNonObject(Undefined, QuizTitleKeys);
  }

  lemma BlankApproval(v: Value)
    requires BlankBesideId(v)
    ensures ResolveApprovedBy(v) == None && ResolveApprovedByName(v) == None
    ensures RawApproverRole(v) == Undefined
    ensures PickString(v, CreatedAtKeys) == None && PickString(v, UpdatedAtKeys) == None
  {
    BlankApprover(v);
    BlankPick(v, CreatedAtKeys);
    BlankPick(v, UpdatedAtKeys);
  }

  lemma BlankApprover(v: Value)
    requires BlankBesideId(v)
    ensures ResolveApprovedBy(v) == None && ResolveApprovedByName(v) == None
  {
    BlankPick(v, ApprovedByKeys);
    BlankPick(v, ApprovedByNameKeys);
    PickStringNonObject(Undefined, PlainIdKeys);
    PickStringNonObject(Undefined, ApproverNameKeys);
  }

  /** A payload that carries nothing but an id normalises to the sentinels with that id. */
  lemma NormalizeIdOnly(v: Value)
    requires BlankBesideId(v)
    ensures NormalizeReportRequest(v) == EmptyRequest().(id := GetString(Get(v, "id")).GetOr(""))
  {
    BlankId(v);
    BlankStudentId(v);
    BlankCourseId(v);
    BlankStudentName(v);
    BlankCourseName(v);
    BlankApproval(v);
  }

  /** A value with no readable field (a primitive, an array, `{}`) normalises to the sentinels. */
  lemma NormalizeEmpty(v: Value)
    requires !v.Obj? || v.fields == map[]
    ensures NormalizeReportRequest(v) == EmptyRequest()
  {
    NormalizeIdOnly(v);
  }

  /** Identifying information: the collection normaliser keeps exactly the requests with it. */
  predicate Identified(r: ReportRequest)
  {
    r.id != "" || r.studentId != "" || r.studentName != UnknownLearner
  }

  /** `.filter(Identified)`: the requests that carry identifying information, each as often as
      it occurs, in their original order (KeepIdentifiedSplits). */
  function KeepIdentified(all: seq<ReportRequest>): (r: seq<ReportRequest>)
    ensures |r| <= |all|
    ensures forall x :: x in r <==> x in all && Identified(x)
    ensures forall x :: multiset(r)[x] == if Identified(x) then multiset(all)[x] else 0
  {
    if all == [] then []
    else
      var rest := KeepIdentified(all[1..]);
      assert all == [all[0]] + all[1..];
      assert forall x :: x in all <==> x == all[0] || x in all[1..];
      if Identified(all[0]) then [all[0]] + rest else rest
  }

  /** Filtering keeps the order: the filter of a concatenation is the concatenation of the
      filters (a single request is kept exactly when it is identified: KeepIdentifiedOne). */
  lemma {:induction false} KeepIdentifiedSplits(a: seq<ReportRequest>, b: seq<ReportRequest>)
    ensures KeepIdentified(a + b) == KeepIdentified(a) + KeepIdentified(b)
  {
    if a == [] {
      assert a + b == b;
    } else {
      var rest := a[1..];
      assert (a + b)[0] == a[0];
      assert (a + b)[1..] == rest + b;
      KeepIdentifiedSplits(rest, b);
      var kept, keptB := KeepIdentified(rest), KeepIdentified(b);
      if Identified(a[0]) {
        assert [a[0]] + (kept + keptB) == ([a[0]] + kept) + keptB;
      }
    }
  }

  lemma KeepIdentifiedOne(x: ReportRequest)
    ensures KeepIdentified([x]) == if Identified(x) then [x] else []
  {
    assert [x][1..] == [];
  }

  /** `items.map(f)`. */
  function MapSeq<A, B>(f: A -> B, items: seq<A>): (r: seq<B>)
    ensures |r| == |items|
    ensures forall i :: 0 <= i < |items| ==> r[i] == f(items[i])
  {
    seq(|items|, i requires 0 <= i < |items| => f(items[i]))
  }

  lemma MapSeqSplits<A, B>(f: A -> B, a: seq<A>, b: seq<A>)
    ensures MapSeq(f, a + b) == MapSeq(f, a) + MapSeq(f, b)
  {
    var all, left, right := MapSeq(f, a + b), MapSeq(f, a), MapSeq(f, b);
    forall i | 0 <= i < |all| ensures all[i] == (left + right)[i] {
      if i < |a| {
        assert (a + b)[i] == a[i];
      } else {
        assert (a + b)[i] == b[i - |a|];
      }
    }
  }

  lemma MapSeqMembers<A, B>(f: A -> B, items: seq<A>, y: B)
    ensures y in MapSeq(f, items) <==> exists i :: 0 <= i < |items| && y == f(items[i])
  {
    var all := MapSeq(f, items);
    if y in all {
      var i :| 0 <= i < |all| && all[i] == y;
    }
    if exists i :: 0 <= i < |items| && y == f(items[i]) {
      var i :| 0 <= i < |items| && y == f(items[i]);
      assert all[i] == y;
    }
  }

  lemma MapSeqOne<A, B>(f: A -> B, a: A)
    ensures MapSeq(f, [a]) == [f(a)]
  {
  }

  /** The normalised items of an array, in order. */
  function NormalizeAll(items: seq<Value>): (r: seq<ReportRequest>)
    ensures |r| == |items|
  {
    MapSeq(NormalizeReportRequest, items)
  }

  /** normalizeRequestCollection: [] for anything but an array; otherwise the identified
      normalised items. */
  function NormalizeRequestCollection(raw: Value): (r: seq<ReportRequest>)
    ensures !raw.Arr? ==> r == []
    ensures raw.Arr? ==> |r| <= |raw.items|
    ensures raw.Arr? ==> forall x :: x in r <==> x in NormalizeAll(raw.items) && Identified(x)
    ensures raw.Arr? ==> forall x ::
      multiset(r)[x] == if Identified(x) then multiset(NormalizeAll(raw.items))[x] else 0
  {
    if raw.Arr? then KeepIdentified(NormalizeAll(raw.items)) else []
  }

  /** The collection keeps the order of the array: normalising `a + b` gives the requests of
      `a` followed by those of `b` (a one-item array: CollectionOfOne). */
  lemma CollectionKeepsOrder(a: seq<Value>, b: seq<Value>)
    ensures NormalizeRequestCollection(Arr(a + b)) ==
      NormalizeRequestCollection(Arr(a)) + NormalizeRequestCollection(Arr(b))
  {
    NormalizeAllSplits(a, b);
    KeepIdentifiedSplits(NormalizeAll(a), NormalizeAll(b));
  }

  lemma NormalizeAllSplits(a: seq<Value>, b: seq<Value>)
    ensures NormalizeAll(a + b) == NormalizeAll(a) + NormalizeAll(b)
  {
    MapSeqSplits(NormalizeReportRequest, a, b);
  }

  /** A one-item array gives its normalised item exactly when that is identified. */
  lemma CollectionOfOne(v: Value)
    ensures var x := NormalizeReportRequest(v);
      NormalizeRequestCollection(Arr([v])) == if Identified(x) then [x] else []
  {
    MapSeqOne(NormalizeReportRequest, v);
    KeepIdentifiedOne(NormalizeReportRequest(v));
  }

  /** The collection is the identified requests among the normalised items. */
  lemma CollectionMembers(raw: Value, x: ReportRequest)
    requires raw.Arr?
    ensures x in NormalizeRequestCollection(raw)
        <==> Identified(x) && exists i :: 0 <= i < |raw.items| && x == NormalizeReportRequest(raw.items[i])
  {
    MapSeqMembers(NormalizeReportRequest, raw.items, x);
  }

  lemma PairIs<T>(s: seq<T>, a: T, b: T)
    requires |s| == 2 && s[0] == a && s[1] == b
    ensures s == [a, b]
  {
  }

  lemma KeepSecondOnly(e: ReportRequest, f: ReportRequest)
    requires !Identified(e) && Identified(f)
    ensures KeepIdentified([e, f]) == [f]
  {
    assert [e, f][1..] == [f];
    assert [f][1..] == [];
  }

  lemma NormalizePlaceholderPair(blank: Value, idOnly: Value, x: string)
    requires !blank.Obj? || blank.fields == map[]
    requires BlankBesideId(idOnly) && GetString(Get(idOnly, "id")) == Some(x)
    ensures NormalizeAll([blank, idOnly]) == [EmptyRequest(), EmptyRequest().(id := x)]
  {
    NormalizeEmpty(blank);
    NormalizeIdOnly(idOnly);
    PairIs(NormalizeAll([blank, idOnly]), EmptyRequest(), EmptyRequest().(id := x));
  }

  /** In a collection such as `[{}, {id: 'r1'}]` the placeholder is dropped and the id-only
      item is kept, with its id. */
  lemma CollectionDropsPlaceholder(blank: Value, idOnly: Value, x: string)
    requires !blank.Obj? || blank.fields == map[]
    requires BlankBesideId(idOnly) && GetString(Get(idOnly, "id")) == Some(x)
    ensures NormalizeRequestCollection(Arr([blank, idOnly])) == [EmptyRequest().(id := x)]
  {
    NormalizePlaceholderPair(blank, idOnly, x);
    KeepSecondOnly(EmptyRequest(), EmptyRequest().(id := x));
  }
}
