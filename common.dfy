/** Values shared by every controller: identifiers, HTTP outcomes and the few
    JavaScript string operations the handlers rely on. */
module Common {

  datatype Option<+T> = None | Some(value: T)

  /** A document identifier as the handlers see it: the hexadecimal text of an ObjectId. */
  type Id = string

  // HTTP status codes used by the handlers
  const OK: int := 200
  const CREATED: int := 201
  const BAD_REQUEST: int := 400
  const UNAUTHORIZED: int := 401
  const FORBIDDEN: int := 403
  const NOT_FOUND: int := 404
  const CONFLICT: int := 409
  const SERVER_ERROR: int := 500

  /** What a handler sends back: a success with its status and payload, or an
      error with the status and message the handler throws (callers pass
      (status, message), which is how they are modelled). */
  datatype Response<+T> = Ok(status: int, data: T) | Err(status: int, message: string)

  /** A value unless it is undefined: a `$set` leaves the stored value for an
      undefined key (the key is dropped from the update), and a destructuring
      default such as `{ page = 1 }` applies exactly to an undefined value. */
  function ValueOr<T>(v: Option<T>, otherwise: T): T {
    if v.Some? then v.value else otherwise
  }

  /** Reading a property off an object, as destructuring does: its value,
      or undefined when the object has no such key. */
  function Lookup<V>(o: map<string, V>, key: string): (r: Option<V>)
    ensures r.Some? <==> key in o
    ensures r.Some? ==> r.value == o[key]
  {
    if key in o then Some(o[key]) else None
  }

  /** JavaScript truthiness of an optional request-body string:
      undefined, null and "" are falsy. */
  predicate Truthy(v: Option<string>) {
    v.Some? && v.value != ""
  }

  /** `v || fallback` for an optional string. */
  function OrElse(v: Option<string>, fallback: string): (r: string)
    ensures Truthy(v) ==> r == v.value
    ensures !Truthy(v) ==> r == fallback
  {
    if Truthy(v) then v.value else fallback
  }

  predicate IsHexDigit(c: char) {
    '0' <= c <= '9' || 'a' <= c <= 'f' || 'A' <= c <= 'F'
  }

  /** `isValidObjectId` on a string: 24 hexadecimal digits, in either case. */
  predicate IsValidObjectId(s: string) {
    |s| == 24 && forall i :: 0 <= i < |s| ==> IsHexDigit(s[i])
  }

  function LowerChar(c: char): char {
    if 'A' <= c <= 'Z' then (c as int + 32) as char else c
  }

  /** ASCII `toLowerCase`. */
  function ToLower(s: string): (r: string)
    ensures |r| == |s|
    ensures forall i :: 0 <= i < |s| ==> r[i] == LowerChar(s[i])
  {
    if s == [] then [] else [LowerChar(s[0])] + ToLower(s[1..])
  }

  /** The stored form of an id after Mongoose casts a request string to an
      ObjectId and back: hexadecimal digits come out in lower case. */
  function ObjectIdOf(s: string): (r: Id)
    ensures |r| == |s|
  {
    ToLower(s)
  }

  /** Casting is idempotent and keeps an id valid. */
  lemma ObjectIdOfCanonical(s: string)
    ensures ObjectIdOf(ObjectIdOf(s)) == ObjectIdOf(s)
    ensures IsValidObjectId(s) ==> IsValidObjectId(ObjectIdOf(s))
  {
    var t := ObjectIdOf(s);
    assert forall i :: 0 <= i < |t| ==> LowerChar(t[i]) == t[i];
    assert ObjectIdOf(t) == t;
  }

  /** The characters JavaScript's `trim` removes: WhiteSpace and LineTerminator. */
  predicate IsSpace(c: char) {
    || c == ' ' || c == '\t' || c == '\n' || c == '\r'
    || c == '\U{000B}' || c == '\U{000C}' || c == '\U{00A0}' || c == '\U{FEFF}'
    || c == '\U{1680}' || ('\U{2000}' <= c <= '\U{200A}')
    || c == '\U{2028}' || c == '\U{2029}' || c == '\U{202F}' || c == '\U{205F}' || c == '\U{3000}'
  }

  /** Every character is white space. */
  predicate IsBlank(s: string) {
    forall i :: 0 <= i < |s| ==> IsSpace(s[i])
  }

  function TrimStart(s: string): (r: string)
    ensures |r| <= |s|
    ensures r == s[|s| - |r|..]
    ensures r == [] || !IsSpace(r[0])
    decreases |s|
  {
    if s != [] && IsSpace(s[0]) then TrimStart(s[1..]) else s
  }

  function TrimEnd(s: string): (r: string)
    ensures |r| <= |s|
    ensures r == s[..|r|]
    ensures r == [] || !IsSpace(r[|r| - 1])
    decreases |s|
  {
    if s != [] && IsSpace(s[|s| - 1]) then TrimEnd(s[..|s| - 1]) else s
  }

  /** `s.trim()`. */
  function Trim(s: string): string {
    TrimEnd(TrimStart(s))
  }

  lemma {:induction false} TrimStartOfBlank(s: string)
    requires IsBlank(s)
    ensures TrimStart(s) == []
    decreases |s|
  {
    if s != [] {
      TrimStartOfBlank(s[1..]);
    }
  }

  lemma {:induction false} TrimStartKeepsNonBlank(s: string)
    requires !IsBlank(s)
    ensures TrimStart(s) != []
    decreases |s|
  {
    if s != [] && IsSpace(s[0]) {
      assert !IsBlank(s[1..]) by {
        var i :| 0 <= i < |s| && !IsSpace(s[i]);
        assert s[1..][i - 1] == s[i];
      }
      TrimStartKeepsNonBlank(s[1..]);
    }
  }

  /** `s.trim() === ""` holds exactly when the string is all white space. */
  lemma TrimEmptyIffBlank(s: string)
    ensures Trim(s) == "" <==> IsBlank(s)
  {
    if IsBlank(s) {
      TrimStartOfBlank(s);
    } else {
      TrimStartKeepsNonBlank(s);
      var t := TrimStart(s);
      assert !IsSpace(t[0]);
      if TrimEnd(t) == [] {
        TrimEndNonEmpty(t);
      }
    }
  }

  lemma {:induction false} TrimEndNonEmpty(t: string)
    requires t != [] && !IsSpace(t[0])
    ensures TrimEnd(t) != []
    decreases |t|
  {
    if IsSpace(t[|t| - 1]) {
      TrimEndNonEmpty(t[..|t| - 1]);
    }
  }

  /** `!text || text.trim() === ""`: missing, empty or all white space. */
  predicate IsBlankText(text: Option<string>) {
    !Truthy(text) || Trim(text.value) == ""
  }

  /** The check rejects exactly the texts without a non-space character. */
  lemma BlankTextMeansNoContent(text: Option<string>)
    ensures IsBlankText(text) <==> text.None? || IsBlank(text.value)
  {
    if text.Some? {
      TrimEmptyIffBlank(text.value);
    }
  }

  /** `req.files` as the multipart parser leaves it: absent when the request
      carried no multipart body, otherwise the uploaded paths of each file
      field that received at least one file. */
  datatype Files = NoFiles | Fields(fields: map<string, seq<string>>)

  /** What `req.files?.<field>[0]?.path` evaluates to. */
  datatype PathLookup = Path(path: string) | Undefined | Throws

  /** What indexing a missing file field throws. */
  const UNDEFINED_READ := "Cannot read properties of undefined (reading '0')"

  /** `req.files?.<field>[0]?.path` as written: the optional chain stops only
      at a missing `req.files`, so a request with files but none in this field
      indexes `undefined` and throws. */
  function FirstPathAsWritten(files: Files, field: string): (r: PathLookup)
    ensures files.NoFiles? ==> r == Undefined
    ensures files.Fields? && field !in files.fields ==> r == Throws
    ensures files.Fields? && field in files.fields ==>
      if files.fields[field] == [] then r == Undefined else r == Path(files.fields[field][0])
  {
    match files
    case NoFiles => Undefined
    case Fields(fields) =>
      if field !in fields then Throws
      else if fields[field] == [] then Undefined
      else Path(fields[field][0])
  }

  /** `req.files?.<field>?.[0]?.path`: the first uploaded path of the field,
      if there is one, and never a throw. */
  function FirstPath(files: Files, field: string): (r: Option<string>)
    ensures r.Some? <==> files.Fields? && field in files.fields && files.fields[field] != []
    ensures r.Some? ==> r.value == files.fields[field][0]
  {
    if files.Fields? && field in files.fields && files.fields[field] != [] then Some(files.fields[field][0])
    else None
  }

  /** The two readings agree except where the one as written throws, which
      happens exactly for a multipart request without the field. */
  lemma FirstPathReadings(files: Files, field: string)
    ensures FirstPathAsWritten(files, field) == Throws <==> files.Fields? && field !in files.fields
    ensures FirstPathAsWritten(files, field) != Throws ==>
      (FirstPath(files, field).Some? <==> FirstPathAsWritten(files, field).Path?)
      && (FirstPath(files, field).Some? ==> FirstPath(files, field).value == FirstPathAsWritten(files, field).path)
  {
  }
}
