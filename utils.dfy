/**
 * backend/users/utils.py: the argument guard of the Razorpay signature
 * check, `validate_file_upload`, the status word of `create_json_response`
 * and `sanitize_filename`.  The HMAC-SHA256 digest is a parameter.
 */
module Utils {
  import opened Text
  import opened Wrappers

  // ------------------------------------------------------------ signature guard

  /** Python truthiness of an optional string argument: present and non-empty. */
  predicate Truthy(s: Option<string>) { s.Some? && s.value != [] }

  /**
   * `verify_razorpay_signature_secure`: false unless all four arguments are
   * truthy; then the hex digest of "order_id|payment_id" under the secret
   * must equal the signature (`compare_digest` is equality).
   */
  function VerifyRazorpaySignature(orderId: Option<string>, paymentId: Option<string>,
                                   signature: Option<string>, secret: Option<string>,
                                   hmacHex: (string, string) -> string): (ok: bool)
    ensures !Truthy(orderId) || !Truthy(paymentId) || !Truthy(signature) || !Truthy(secret) ==> !ok
    ensures ok <==> Truthy(orderId) && Truthy(paymentId) && Truthy(signature) && Truthy(secret) &&
                    hmacHex(secret.value, orderId.value + "|" + paymentId.value) == signature.value
  {
    if !(Truthy(orderId) && Truthy(paymentId) && Truthy(signature) && Truthy(secret)) then false
    else
      var message := orderId.value + "|" + paymentId.value;
      hmacHex(secret.value, message) == signature.value
  }

  // ------------------------------------------------------------ validate_file_upload

  /** An uploaded file: its name and its size in bytes. */
  datatype Upload = Upload(name: string, size: int)

  datatype UploadError = NoFile | TypeNotAllowed(allowed: seq<string>) | TooLarge(maxSizeMb: int)

  const DefaultUploadTypes: seq<string> := [".pdf", ".doc", ".docx", ".jpg", ".jpeg", ".png"]

  /** `any(s.endswith(p) for p in ps)`. */
  predicate EndsWithAny(s: string, ps: seq<string>) {
    exists k :: 0 <= k < |ps| && EndsWith(s, ps[k])
  }

  /** A Django `File` is falsy when it is missing or its name is empty. */
  predicate FileGiven(file: Option<Upload>) { file.Some? && file.value.name != [] }

  /**
   * `validate_file_upload`: the file must be given, its lowercased name must
   * end with one of the allowed suffixes (the default list when none is
   * passed), and its size must not exceed `max_size_mb` MiB.  Success is
   * `Ok(true)`; each `ValidationError` is an `Err`.
   */
  function ValidateFileUpload(file: Option<Upload>, allowedTypes: Option<seq<string>>, maxSizeMb: int)
    : (r: Result<bool, UploadError>)
    ensures r.Ok? ==> r.value
    ensures r == Err(NoFile) <==> !FileGiven(file)
    ensures var types := if allowedTypes.Some? then allowedTypes.value else DefaultUploadTypes;
      r.Ok? <==> FileGiven(file) && EndsWithAny(Lower(file.value.name), types) &&
                 file.value.size <= maxSizeMb * 1024 * 1024
    ensures r.Err? && r.error.TypeNotAllowed? ==> FileGiven(file) && !EndsWithAny(Lower(file.value.name),
      if allowedTypes.Some? then allowedTypes.value else DefaultUploadTypes)
  {
    if !FileGiven(file) then Err(NoFile)
    else
      var types := if allowedTypes.Some? then allowedTypes.value else DefaultUploadTypes;
      if !EndsWithAny(Lower(file.value.name), types) then Err(TypeNotAllowed(types))
      else if file.value.size > maxSizeMb * 1024 * 1024 then Err(TooLarge(maxSizeMb))
      else Ok(true)
  }

  /** An explicitly empty allow-list refuses every file, unlike the default. */
  lemma UploadEmptyAllowList(file: Upload, maxSizeMb: int)
    requires file.name != []
    ensures ValidateFileUpload(Some(file), Some([]), maxSizeMb) == Err(TypeNotAllowed([]))
  {
  }

  /** With the defaults, a ".pdf" name of at most 10 MiB passes whatever its case. */
  lemma UploadDefaultPdf(name: string, size: int)
    requires EndsWith(Lower(name), ".pdf") && size <= 10 * 1024 * 1024
    ensures ValidateFileUpload(Some(Upload(name, size)), None, 10) == Ok(true)
  {
    assert EndsWith(Lower(name), DefaultUploadTypes[0]);
  }

  // ------------------------------------------------------------ create_json_response

  datatype JsonResponse<D> = JsonResponse(httpStatus: int, status: string, data: D, message: string)

  /** `create_json_response`: the body's status word follows the HTTP status. */
  function CreateJsonResponse<D>(data: D, status: int, message: string): (r: JsonResponse<D>)
    ensures r.httpStatus == status && r.data == data && r.message == message
    ensures r.status == "success" || r.status == "error"
    ensures r.status == "success" <==> status < 400
  {
    JsonResponse(status, if status < 400 then "success" else "error", data, message)
  }

  // ------------------------------------------------------------ sanitize_filename

  /** The characters `[\w\-_\.]` leaves alone. */
  predicate SafeChar(c: char) { IsWordChar(c) || c == '-' || c == '.' }

  predicate AllSafe(s: string) { forall i :: 0 <= i < |s| ==> SafeChar(s[i]) }

  /** `re.sub(r'[^\w\-_\.]', '_', s)`. */
  function SanitizeChars(s: string): (r: string)
    ensures |r| == |s|
    ensures forall i :: 0 <= i < |s| ==> r[i] == (if SafeChar(s[i]) then s[i] else '_')
  {
    seq(|s|, i requires 0 <= i < |s| => if SafeChar(s[i]) then s[i] else '_')
  }

  /** The substitution yields only safe characters, changes exactly the unsafe ones and is idempotent. */
  lemma SanitizeCharsSafe(s: string)
    ensures AllSafe(SanitizeChars(s))
    ensures SanitizeChars(s) == s <==> AllSafe(s)
    ensures SanitizeChars(SanitizeChars(s)) == SanitizeChars(s)
  {
    var r := SanitizeChars(s);
    assert forall i :: 0 <= i < |s| ==> SafeChar(r[i]);
    if r == s {
      assert forall i :: 0 <= i < |s| ==> SafeChar(s[i]) by {
        forall i | 0 <= i < |s| ensures SafeChar(s[i]) { assert r[i] == s[i]; }
      }
    }
  }

  /** The index of the last `c` in `s`, if any. */
  function LastIndex(s: string, c: char): (r: Option<nat>)
    ensures r.None? <==> Free(s, c)
    ensures r.Some? ==> r.value < |s| && s[r.value] == c && Free(s[r.value + 1..], c)
  {
    if s == [] then None
    else if s[|s| - 1] == c then Some(|s| - 1)
    else
      var r := LastIndex(s[..|s| - 1], c);
      assert r.None? ==> Free(s, c) by {
        if r.None? {
          forall i | 0 <= i < |s| ensures s[i] != c {
            if i < |s| - 1 { assert s[i] == s[..|s| - 1][i]; }
          }
        }
      }
      assert r.Some? ==> s[r.value + 1..] == s[..|s| - 1][r.value + 1..] + [s[|s| - 1]];
      r
  }

  const MaxFilenameLength: nat := 100
  const KeptStemLength: nat := 95

  function Min(a: nat, b: nat): nat { if a <= b then a else b }

  /**
   * `sanitize_filename` as written: after the substitution, a name of more
   * than 100 characters is split at its last '.' and keeps at most 95
   * characters before it; with no '.' the two-name unpacking of `rsplit`
   * raises `ValueError`, the `Err` here.
   */
  function SanitizeFilenameAsWritten(filename: string): (r: Result<string, string>)
    ensures r.Err? <==> |filename| > MaxFilenameLength && Free(SanitizeChars(filename), '.')
    ensures r.Ok? ==> AllSafe(r.value)
    ensures r.Ok? && |filename| <= MaxFilenameLength ==> r.value == SanitizeChars(filename)
  {
    var f := SanitizeChars(filename);
    SanitizeCharsSafe(filename);
    if |f| <= MaxFilenameLength then Ok(f)
    else match LastIndex(f, '.')
      case None => Err("not enough values to unpack (expected 2, got 1)")
      case Some(i) =>
        var out := f[..Min(i, KeptStemLength)] + "." + f[i + 1..];
        assert forall j :: 0 <= j < |out| ==> SafeChar(out[j]) by {
          forall j | 0 <= j < |out| ensures SafeChar(out[j]) {
            if j < Min(i, KeptStemLength) { assert out[j] == f[j]; }
            else if j > Min(i, KeptStemLength) { assert out[j] == f[i + 1 + j - Min(i, KeptStemLength) - 1]; }
          }
        }
        Ok(out)
  }

  /** Any name over 100 characters whose sanitized form has no '.' makes the as-written function raise. */
  lemma SanitizeCrashesWithoutDot(filename: string)
    requires |filename| > MaxFilenameLength && Free(filename, '.')
    ensures SanitizeFilenameAsWritten(filename).Err?
  {
    var f := SanitizeChars(filename);
    forall i | 0 <= i < |f| ensures f[i] != '.' {
      assert filename[i] != '.';
    }
  }

  /**
   * `sanitize_filename` with the evidently intended length limit for a name
   * that has no '.': it is cut to 100 characters instead of raising.  Names
   * with a '.' are treated as written.
   */
  function SanitizeFilename(filename: string): (r: string)
    ensures AllSafe(r)
    ensures |filename| <= MaxFilenameLength ==> r == SanitizeChars(filename)
    ensures SanitizeFilenameAsWritten(filename).Ok? ==> r == SanitizeFilenameAsWritten(filename).value
    ensures SanitizeFilenameAsWritten(filename).Err? ==> |r| == MaxFilenameLength && r == SanitizeChars(filename)[..MaxFilenameLength]
  {
    match SanitizeFilenameAsWritten(filename)
    case Ok(v) => v
    case Err(_) =>
      var f := SanitizeChars(filename);
      SanitizeCharsSafe(filename);
      f[..MaxFilenameLength]
  }

  /**
   * A long name with a '.' keeps, after the stem, everything from its last
   * '.' on, and the stem is the first min(i, 95) characters before that '.'.
   */
  lemma SanitizeLongKeepsExtension(filename: string)
    requires |filename| > MaxFilenameLength && !Free(SanitizeChars(filename), '.')
    ensures var f := SanitizeChars(filename); var i := LastIndex(f, '.').value;
      var out := SanitizeFilename(filename); var stem := Min(i, KeptStemLength);
      |out| == stem + |f| - i && out[..stem] == f[..stem] && out[stem..] == f[i..] &&
      Free(out[stem + 1..], '.')
  {
    var f := SanitizeChars(filename);
    var i := LastIndex(f, '.').value;
    var stem := Min(i, KeptStemLength);
    assert SanitizeFilename(filename) == f[..stem] + "." + f[i + 1..];
    StemAndExtension(f, i, stem);
  }

  lemma StemAndExtension(f: string, i: nat, stem: nat)
    requires i < |f| && f[i] == '.' && Free(f[i + 1..], '.') && stem <= i
    ensures var out := f[..stem] + "." + f[i + 1..];
      |out| == stem + |f| - i && out[..stem] == f[..stem] && out[stem..] == f[i..] &&
      Free(out[stem + 1..], '.')
  {
    var out := f[..stem] + "." + f[i + 1..];
    assert f[i..] == "." + f[i + 1..];
    assert out[stem + 1..] == f[i + 1..];
  }

  /** The corrected function never returns more than 100 characters when the extension has at most four. */
  lemma SanitizeShortExtensionBounded(filename: string)
    requires var f := SanitizeChars(filename);
      |filename| > MaxFilenameLength && !Free(f, '.') && |f| - LastIndex(f, '.').value <= 5
    ensures |SanitizeFilename(filename)| <= MaxFilenameLength
  {
    SanitizeLongKeepsExtension(filename);
  }

  /**
   * The length limit is not a bound on the result: a long name whose last
   * '.' comes after position 95 and is followed by five or more characters
   * stays over 100 characters.
   */
  lemma SanitizeLongExtensionExceeds(filename: string)
    requires var f := SanitizeChars(filename);
      |filename| > MaxFilenameLength && !Free(f, '.') && LastIndex(f, '.').value >= KeptStemLength &&
      |f| - LastIndex(f, '.').value > 5
    ensures |SanitizeFilename(filename)| > MaxFilenameLength
  {
    SanitizeLongKeepsExtension(filename);
  }
}
