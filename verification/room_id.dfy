/**
 The room-id form of the mode selector: the validation of a typed room id,
 and the decision to create a room, join one, or show an error. The form's
 state updates are returned as a new form value.
 */
module RoomIdForm {
  import opened Options

  // ---------------------------------------------------------------------------
  // JavaScript string primitives

  /**
   The characters `String.prototype.trim` removes: the white space and line
   terminators of ECMAScript (tab, line feed, vertical tab, form feed,
   carriage return, space, no-break space, the space separators of Unicode,
   the line and paragraph separators, and the byte order mark).
   */
  predicate IsWhiteSpace(c: char)
  {
    var u := c as int;
    || u == 0x09 || u == 0x0A || u == 0x0B || u == 0x0C || u == 0x0D || u == 0x20
    || u == 0xA0 || u == 0x1680 || (0x2000 <= u <= 0x200A)
    || u == 0x2028 || u == 0x2029 || u == 0x202F || u == 0x205F || u == 0x3000 || u == 0xFEFF
  }

  /** `s` without its leading white space. */
  function TrimStart(s: string): (r: string)
    ensures |r| <= |s| && r == s[|s| - |r|..]
    ensures forall k :: 0 <= k < |s| - |r| ==> IsWhiteSpace(s[k])
    ensures r != [] ==> !IsWhiteSpace(r[0])
  {
    if s != [] && IsWhiteSpace(s[0]) then TrimStart(s[1..]) else s
  }

  /** `s` without its trailing white space. */
  function TrimEnd(s: string): (r: string)
    ensures |r| <= |s| && r == s[..|r|]
    ensures forall k :: |r| <= k < |s| ==> IsWhiteSpace(s[k])
    ensures r != [] ==> !IsWhiteSpace(r[|r| - 1])
  {
    if s != [] && IsWhiteSpace(s[|s| - 1]) then TrimEnd(s[..|s| - 1]) else s
  }

  /** `String.prototype.trim`: leading and trailing white space removed. */
  function Trim(s: string): string
  {
    TrimEnd(TrimStart(s))
  }

  lemma PrefixOfSuffix(s: string, i: nat, n: nat)
    requires i + n <= |s|
    ensures s[i..][..n] == s[i..i + n]
  {
  }

  /**
   The trimmed string is the infix of `s` at offset `i`, everything before
   and after it being white space.
   */
  lemma TrimIsInfix(s: string)
    ensures var r := Trim(s);
      var i := |s| - |TrimStart(s)|;
      && i + |r| <= |s| && r == s[i..i + |r|]
      && (forall k :: 0 <= k < i ==> IsWhiteSpace(s[k]))
      && (forall k :: i + |r| <= k < |s| ==> IsWhiteSpace(s[k]))
  {
    TrimmedSlice(s);
    TrimmedTail(s);
  }

  lemma TrimmedSlice(s: string)
    ensures var r := Trim(s);
      var i := |s| - |TrimStart(s)|;
      i + |r| <= |s| && r == s[i..i + |r|]
  {
    var t := TrimStart(s);
    var r := TrimEnd(t);
    assert Trim(s) == r;
    InfixOf(s, t, r);
  }

  lemma TrimmedTail(s: string)
    ensures var r := Trim(s);
      var i := |s| - |TrimStart(s)|;
      i + |r| <= |s| && forall k :: i + |r| <= k < |s| ==> IsWhiteSpace(s[k])
  {
    var t := TrimStart(s);
    var r := TrimEnd(t);
    assert Trim(s) == r;
    InfixOf(s, t, r);
  }

  /** A prefix `r` of a suffix `t` of `s`, cut off by white space on both sides. */
  lemma InfixOf(s: string, t: string, r: string)
    requires |t| <= |s| && t == s[|s| - |t|..]
    requires forall k :: 0 <= k < |s| - |t| ==> IsWhiteSpace(s[k])
    requires |r| <= |t| && r == t[..|r|]
    requires forall k :: |r| <= k < |t| ==> IsWhiteSpace(t[k])
    ensures var i := |s| - |t|;
      && i + |r| <= |s| && r == s[i..i + |r|]
      && (forall k :: i + |r| <= k < |s| ==> IsWhiteSpace(s[k]))
  {
    var i := |s| - |t|;
    PrefixOfSuffix(s, i, |r|);
    WhiteTail(s, i, |r|);
  }

  lemma WhiteTail(s: string, i: nat, n: nat)
    requires i + n <= |s|
    requires forall k :: n <= k < |s| - i ==> IsWhiteSpace(s[i..][k])
    ensures forall k :: i + n <= k < |s| ==> IsWhiteSpace(s[k])
  {
    forall k | i + n <= k < |s|
      ensures IsWhiteSpace(s[k])
    {
      assert s[i..][k - i] == s[k];
    }
  }

  /** The trimmed string neither starts nor ends with white space. */
  lemma TrimmedEnds(s: string)
    ensures var r := Trim(s);
      r != [] ==> !IsWhiteSpace(r[0]) && !IsWhiteSpace(r[|r| - 1])
  {
    var t := TrimStart(s);
    var r := TrimEnd(t);
    if r != [] {
      assert r[0] == t[0];
    }
  }

  /** Trimming twice is trimming once. */
  lemma TrimIdempotent(s: string)
    ensures Trim(Trim(s)) == Trim(s)
  {
    var r := Trim(s);
    TrimmedEnds(s);
    if r != [] {
      assert TrimStart(r) == r;
      assert TrimEnd(r) == r;
    }
  }

  /** Only white space trims to nothing. */
  lemma TrimEmpty(s: string)
    ensures Trim(s) == [] <==> forall k :: 0 <= k < |s| ==> IsWhiteSpace(s[k])
  {
    TrimIsInfix(s);
    if forall k :: 0 <= k < |s| ==> IsWhiteSpace(s[k]) {
      AllWhiteTrimsStart(s);
    }
  }

  lemma {:induction false} AllWhiteTrimsStart(s: string)
    requires forall k :: 0 <= k < |s| ==> IsWhiteSpace(s[k])
    ensures TrimStart(s) == []
    decreases |s|
  {
    if s != [] {
      AllWhiteTrimsStart(s[1..]);
    }
  }

  /**
   `String.prototype.length`: UTF-16 code units, so a character outside the
   Basic Multilingual Plane counts twice.
   */
  function JsLength(s: string): (n: nat)
    ensures |s| <= n <= 2 * |s|
    ensures (forall k :: 0 <= k < |s| ==> s[k] as int < 0x10000) ==> n == |s|
  {
    if s == [] then 0 else (if s[0] as int < 0x10000 then 1 else 2) + JsLength(s[1..])
  }

  /** A character counts one code unit, or two outside the Basic Multilingual Plane. */
  lemma JsLengthOfChar(c: char)
    ensures JsLength([c]) == (if c as int < 0x10000 then 1 else 2)
  {
  }

  /** The UTF-16 length of a concatenation is the sum of the lengths. */
  lemma {:induction false} JsLengthConcat(a: string, b: string)
    ensures JsLength(a + b) == JsLength(a) + JsLength(b)
    decreases |a|
  {
    if a == [] {
      assert a + b == b;
    } else {
      assert (a + b)[1..] == a[1..] + b;
      JsLengthConcat(a[1..], b);
    }
  }

  // ---------------------------------------------------------------------------
  // Validation

  const TooShort := "Room ID must be at least 3 characters"
  const TooLong := "Room ID must be 30 characters or less"
  const BadCharacter := "Only letters, numbers, hyphens, and underscores"

  /** The character class `[a-zA-Z0-9_-]`. */
  predicate RoomIdChar(c: char)
  {
    ('a' <= c <= 'z') || ('A' <= c <= 'Z') || ('0' <= c <= '9') || c == '_' || c == '-'
  }

  /** The pattern `^[a-zA-Z0-9_-]+$`, matched character by character. */
  function MatchesPattern(id: string): (r: bool)
    ensures r <==> id != [] && forall k :: 0 <= k < |id| ==> RoomIdChar(id[k])
  {
    if |id| == 1 then RoomIdChar(id[0])
    else id != [] && RoomIdChar(id[0]) && MatchesPattern(id[1..])
  }

  /** The outcome of a validation, with the message the form then shows ("" when valid). */
  datatype Validation = Validation(ok: bool, error: string)

  /**
   The checks in order: too short, then too long, then a character outside
   the class; the first that fails supplies the message.
   */
  function ValidateRoomId(id: string): (r: Validation)
    ensures r.ok <==> 3 <= JsLength(id) <= 30 && forall k :: 0 <= k < |id| ==> RoomIdChar(id[k])
    ensures r.ok <==> r.error == ""
    ensures JsLength(id) < 3 ==> r.error == TooShort
    ensures 3 <= JsLength(id) && JsLength(id) > 30 ==> r.error == TooLong
    ensures 3 <= JsLength(id) <= 30 && (exists k :: 0 <= k < |id| && !RoomIdChar(id[k])) ==> r.error == BadCharacter
  {
    if JsLength(id) < 3 then Validation(false, TooShort)
    else if JsLength(id) > 30 then Validation(false, TooLong)
    else if !MatchesPattern(id) then Validation(false, BadCharacter)
    else Validation(true, "")
  }

  /**
   Two emoji are four code units: long enough, so the id is refused for its
   characters rather than as too short.
   */
  lemma TwoEmojiAreBadCharacters()
    ensures JsLength("\U{1F600}\U{1F600}") == 4
    ensures ValidateRoomId("\U{1F600}\U{1F600}").error == BadCharacter
  {
    var e := "\U{1F600}";
    JsLengthOfChar('\U{1F600}');
    JsLengthConcat(e, e);
    assert e + e == "\U{1F600}\U{1F600}";
    assert !RoomIdChar(e[0]);
  }

  /** An accepted id is 3 to 30 characters, every one of them ASCII. */
  lemma ValidIdIsAscii(id: string)
    requires ValidateRoomId(id).ok
    ensures forall k :: 0 <= k < |id| ==> id[k] as int < 128
    ensures 3 <= |id| <= 30 && id != ""
  {
    assert 3 <= JsLength(id) <= 30 && forall k :: 0 <= k < |id| ==> RoomIdChar(id[k]);
    ClassIsAsciiEverywhere(id);
  }

  lemma ClassIsAsciiEverywhere(id: string)
    requires forall k :: 0 <= k < |id| ==> RoomIdChar(id[k])
    ensures forall k :: 0 <= k < |id| ==> id[k] as int < 128
  {
    forall k | 0 <= k < |id|
      ensures id[k] as int < 128
    {
      ClassIsAscii(id[k]);
    }
  }

  lemma ClassIsAscii(c: char)
    requires RoomIdChar(c)
    ensures c as int < 128
  {
    if 'a' <= c <= 'z' {
      assert c as int <= 'z' as int;
    } else if 'A' <= c <= 'Z' {
      assert c as int <= 'Z' as int;
    } else if '0' <= c <= '9' {
      assert c as int <= '9' as int;
    }
  }

  // ---------------------------------------------------------------------------
  // The join button

  /** The form: the typed room id, whether the input is shown, the error shown. */
  datatype Form = Form(roomId: string, showInput: bool, error: string)

  /** What the form asks for: create a room (no id), or join the given room. */
  datatype Selection = CreateRoom | JoinRoom(roomId: string)

  datatype JoinOutcome = JoinOutcome(form: Form, selection: Option<Selection>)

  /**
   The join button: an id that trims to nothing creates a room and hides the
   input; a trimmed id that validates is joined, trimmed, and the form is
   cleared; otherwise nothing is selected and the validation message shows.
   */
  function HandleOnlineJoin(f: Form): (r: JoinOutcome)
    ensures Trim(f.roomId) == "" ==> r == JoinOutcome(f.(showInput := false), Some(CreateRoom))
    ensures Trim(f.roomId) != "" && ValidateRoomId(Trim(f.roomId)).ok ==>
      r == JoinOutcome(Form("", false, ""), Some(JoinRoom(Trim(f.roomId))))
    ensures Trim(f.roomId) != "" && !ValidateRoomId(Trim(f.roomId)).ok ==>
      r.selection.None? && r.form == f.(error := ValidateRoomId(Trim(f.roomId)).error) && r.form.error != ""
    ensures r.selection.Some? && r.selection.value.JoinRoom? ==>
      var id := r.selection.value.roomId;
      ValidateRoomId(id).ok && Trim(id) == id
  {
    var trimmed := Trim(f.roomId);
    if trimmed != "" then
      var v := ValidateRoomId(trimmed);
      if v.ok then
        TrimIdempotent(f.roomId);
        assert Trim(trimmed) == trimmed;
        JoinOutcome(Form("", false, ""), Some(JoinRoom(trimmed)))
      else JoinOutcome(f.(error := v.error), None)
    else JoinOutcome(f.(showInput := false), Some(CreateRoom))
  }
}
