/**
 * The registration form of the client: the filters applied while typing, the
 * e-mail pattern, and the checks run before the form is submitted.
 */
module RegisterForm {
  import opened Text
  import opened Seqs

  datatype Field =
    | StoreName | OwnerName | Email | Password | ConfirmPassword
    | Phone | Address | GstNumber | LicenseNumber

  datatype Form = Form(
    storeName: string,
    ownerName: string,
    email: string,
    password: string,
    confirmPassword: string,
    phone: string,
    address: string,
    gstNumber: string,
    licenseNumber: string)

  const EmptyForm: Form := Form("", "", "", "", "", "", "", "", "")

  function Get(f: Form, k: Field): string {
    match k
    case StoreName => f.storeName
    case OwnerName => f.ownerName
    case Email => f.email
    case Password => f.password
    case ConfirmPassword => f.confirmPassword
    case Phone => f.phone
    case Address => f.address
    case GstNumber => f.gstNumber
    case LicenseNumber => f.licenseNumber
  }

  /** `{ ...formData, [name]: value }`: the named field is replaced and no other. */
  function Set(f: Form, k: Field, v: string): (r: Form)
    ensures Get(r, k) == v
    ensures forall other :: other != k ==> Get(r, other) == Get(f, other)
  {
    match k
    case StoreName => f.(storeName := v)
    case OwnerName => f.(ownerName := v)
    case Email => f.(email := v)
    case Password => f.(password := v)
    case ConfirmPassword => f.(confirmPassword := v)
    case Phone => f.(phone := v)
    case Address => f.(address := v)
    case GstNumber => f.(gstNumber := v)
    case LicenseNumber => f.(licenseNumber := v)
  }

  // ---------------------------------------------------------------- filters

  /** The characters the typing filters keep. */
  datatype Keep = NameChars | Digits  // [a-zA-Z0-9 ] and [0-9]

  predicate Allowed(k: Keep, c: char) {
    match k
    case NameChars => IsAsciiAlnum(c) || c == ' '
    case Digits => IsDigit(c)
  }

  /** `replace(/[^…]/g, '')`: drops every character outside the class, keeping the rest in order. */
  function KeepOnly(k: Keep, s: string): (r: string)
    ensures |r| <= |s|
    ensures forall i :: 0 <= i < |r| ==> Allowed(k, r[i])
  {
    if s == [] then []
    else (if Allowed(k, s[0]) then [s[0]] else []) + KeepOnly(k, s[1..])
  }

  /** Each allowed character survives the filter as often as it occurs; no other survives. */
  lemma {:induction false} KeepOnlyCounts(k: Keep, s: string)
    ensures forall c :: multiset(KeepOnly(k, s))[c] == if Allowed(k, c) then multiset(s)[c] else 0
    decreases |s|
  {
    if s != [] {
      KeepOnlyCounts(k, s[1..]);
      assert s == [s[0]] + s[1..];
    }
  }

  /** Filtering a concatenation filters each part: the kept characters stay in their order. */
  lemma {:induction false} KeepOnlyConcat(k: Keep, a: string, b: string)
    ensures KeepOnly(k, a + b) == KeepOnly(k, a) + KeepOnly(k, b)
    decreases |a|
  {
    if a == [] {
      assert a + b == b;
    } else {
      HeadTail(a, b);
      KeepOnlyConcat(k, a[1..], b);
      var h := if Allowed(k, a[0]) then [a[0]] else [];
      Assoc(h, KeepOnly(k, a[1..]), KeepOnly(k, b));
    }
  }

  /** A string of allowed characters passes the filter unchanged. */
  lemma {:induction false} KeepOnlyAllowed(k: Keep, s: string)
    requires forall i :: 0 <= i < |s| ==> Allowed(k, s[i])
    ensures KeepOnly(k, s) == s
    decreases |s|
  {
    if s != [] {
      KeepOnlyAllowed(k, s[1..]);
    }
  }

  /** The store- and owner-name filter is idempotent. */
  lemma KeepOnlyIdempotent(k: Keep, s: string)
    ensures KeepOnly(k, KeepOnly(k, s)) == KeepOnly(k, s)
  {
    KeepOnlyAllowed(k, KeepOnly(k, s));
  }

  const PhoneLength: nat := 10

  /** The phone filter: the digits of the input, cut to the first ten. */
  function PhoneDigits(s: string): (r: string)
    ensures |r| <= PhoneLength
    ensures forall i :: 0 <= i < |r| ==> IsDigit(r[i])
    ensures var d := KeepOnly(Digits, s);
      && |r| == (if |d| < PhoneLength then |d| else PhoneLength)
      && r == d[..|r|]
  {
    var d := KeepOnly(Digits, s);
    if |d| <= PhoneLength then d else d[..PhoneLength]
  }

  /** The phone filter is idempotent. */
  lemma PhoneDigitsIdempotent(s: string)
    ensures PhoneDigits(PhoneDigits(s)) == PhoneDigits(s)
  {
    var r := PhoneDigits(s);
    KeepOnlyAllowed(Digits, r);
  }

  /** What typing `value` into field `k` stores. */
  function Filtered(k: Field, value: string): string {
    match k
    case StoreName => KeepOnly(NameChars, value)
    case OwnerName => KeepOnly(NameChars, value)
    case Phone => PhoneDigits(value)
    case _ => value
  }

  /** The form and its per-field error messages. */
  datatype State = State(form: Form, errors: map<Field, string>)

  /**
   * `handleChange`: the named field takes the filtered value, and that
   * field's error is cleared if it has a non-empty one; nothing else changes.
   */
  function HandleChange(st: State, k: Field, value: string): (r: State)
    ensures Get(r.form, k) == Filtered(k, value)
    ensures forall other :: other != k ==> Get(r.form, other) == Get(st.form, other)
    ensures k in r.errors <==> k in st.errors && st.errors[k] == ""
    ensures k in r.errors ==> r.errors[k] == ""
    ensures forall other :: other != k ==>
      && (other in r.errors <==> other in st.errors)
      && (other in r.errors ==> r.errors[other] == st.errors[other])
  {
    var errors := if k in st.errors && st.errors[k] != "" then st.errors - {k} else st.errors;
    State(Set(st.form, k, Filtered(k, value)), errors)
  }

  // ----------------------------------------------------------------- e-mail

  /** A character of the pattern's class `[^\s@]`. */
  predicate EmailChar(c: char) {
    !IsJsSpace(c) && c != '@'
  }

  /**
   * `/^[^\s@]+@[^\s@]+\.[^\s@]+$/`: the string splits as local part, `@`,
   * a non-empty run, `.`, a non-empty run, with no whitespace and no other
   * `@` anywhere.
   */
  ghost predicate EmailPattern(e: string) {
    exists i, j :: EmailSplit(e, i, j)
  }

  ghost predicate EmailSplit(e: string, i: int, j: int) {
    && 0 < i && i + 1 < j && j + 1 < |e|
    && e[i] == '@' && e[j] == '.'
    && forall k :: 0 <= k < |e| && k != i ==> EmailChar(e[k])
  }

  /**
   * `validateEmailFormat`: no whitespace, one `@` after a non-empty local
   * part, and a domain holding a `.` that is neither its first nor its last
   * character.
   */
  function ValidateEmailFormat(e: string): (r: bool)
    ensures r <==> EmailPattern(e)
  {
    if (forall k :: 0 <= k < |e| ==> !IsJsSpace(e[k])) && '@' in e then
      var i := IndexOf(e, '@');
      var domain := e[i + 1..];
      var r := i > 0 && '@' !in domain && |domain| >= 3 && '.' in domain[1..|domain| - 1];
      EmailFormatMeansPattern(e, i, r);
      r
    else
      EmailPatternNeedsAt(e);
      false
  }

  lemma EmailPatternNeedsAt(e: string)
    requires !(forall k :: 0 <= k < |e| ==> !IsJsSpace(e[k])) || '@' !in e
    ensures !EmailPattern(e)
  {
  }

  lemma EmailFormatMeansPattern(e: string, i: nat, r: bool)
    requires forall k :: 0 <= k < |e| ==> !IsJsSpace(e[k])
    requires i < |e| && e[i] == '@' && '@' !in e[..i]
    requires var domain := e[i + 1..];
      r == (i > 0 && '@' !in domain && |domain| >= 3 && '.' in domain[1..|domain| - 1])
    ensures r <==> EmailPattern(e)
  {
    var domain := e[i + 1..];
    if r {
      var m :| 0 <= m < |domain[1..|domain| - 1]| && domain[1..|domain| - 1][m] == '.';
      var j := i + 2 + m;
      assert e[j] == '.';
      forall k | 0 <= k < |e| && k != i ensures EmailChar(e[k]) {
        if k < i {
          assert e[..i][k] == e[k];
        } else {
          assert domain[k - i - 1] == e[k];
        }
      }
      assert EmailSplit(e, i, j);
    }
    if EmailPattern(e) {
      var i', j :| EmailSplit(e, i', j);
      assert i' == i;
      assert '@' !in domain by {
        forall k | 0 <= k < |domain| ensures domain[k] != '@' {
          assert domain[k] == e[i + 1 + k];
        }
      }
      var m := j - i - 2;
      assert domain[1..|domain| - 1][m] == '.';
    }
  }

  // ------------------------------------------------------------- form check

  /** Whether `validateForm`'s check for field `k` fails; fields it does not check never fail. */
  predicate CheckFails(f: Form, k: Field) {
    match k
    case StoreName => Trim(f.storeName) == []
    case OwnerName => Utf16Length(Trim(f.ownerName)) < 2
    case Phone => Utf16Length(f.phone) < 10
    case Email => !ValidateEmailFormat(f.email)
    case Password => f.password == "" || Utf16Length(f.password) < 6
    case ConfirmPassword => f.password != f.confirmPassword
    case _ => false
  }

  function Message(k: Field): string {
    match k
    case StoreName => "Store name is required"
    case OwnerName => "Owner name should be at least 2 characters"
    case Phone => "Phone number must be 10 digits"
    case Email => "Invalid email format"
    case Password => "Password must be at least 6 characters"
    case ConfirmPassword => "Passwords do not match"
    case _ => ""
  }

  const CheckedFields: set<Field> := {StoreName, OwnerName, Phone, Email, Password, ConfirmPassword}

  /** `validateForm`'s error map: one message under each field whose check fails. */
  function ValidateForm(f: Form): (r: map<Field, string>)
    ensures forall k :: k in r <==> k in CheckedFields && CheckFails(f, k)
    ensures forall k :: k in r ==> r[k] == Message(k) && r[k] != ""
  {
    Errors(set k | k in CheckedFields && CheckFails(f, k))
  }

  /** One message under each failing field. */
  function Errors(failing: set<Field>): (r: map<Field, string>)
    requires failing <= CheckedFields
    ensures r.Keys == failing
    ensures forall k :: k in r ==> r[k] == Message(k) && r[k] != ""
  {
    map k | k in failing :: Message(k)
  }

  /** Each check in the source's own terms; the e-mail one through the pattern. */
  lemma ValidateFormChecks(f: Form)
    ensures StoreName in ValidateForm(f) <==> Trim(f.storeName) == []
    ensures OwnerName in ValidateForm(f) <==> Utf16Length(Trim(f.ownerName)) < 2
    ensures Phone in ValidateForm(f) <==> Utf16Length(f.phone) < 10
    ensures Email in ValidateForm(f) <==> !EmailPattern(f.email)
    ensures Password in ValidateForm(f) <==> Utf16Length(f.password) < 6
    ensures ConfirmPassword in ValidateForm(f) <==> f.password != f.confirmPassword
    ensures ValidateForm(f).Keys <= CheckedFields
  {
    assert f.password == "" ==> Utf16Length(f.password) == 0;
  }

  /** The form passes when no check reports an error. */
  predicate FormValid(f: Form) {
    ValidateForm(f) == map[]
  }

  /** The form passes exactly when all six conditions hold. */
  lemma FormValidIff(f: Form)
    ensures FormValid(f) <==>
      && Trim(f.storeName) != []
      && Utf16Length(Trim(f.ownerName)) >= 2
      && Utf16Length(f.phone) >= 10
      && EmailPattern(f.email)
      && Utf16Length(f.password) >= 6
      && f.password == f.confirmPassword
  {
    ValidateFormChecks(f);
    var r := ValidateForm(f);
    if r != map[] {
      var k :| k in r;
    }
  }

  /** A phone typed through the filter that passes the form check is exactly ten digits. */
  lemma FilteredPhoneIsTenDigits(f: Form, typed: string)
    requires f.phone == PhoneDigits(typed)
    requires FormValid(f)
    ensures |f.phone| == 10
    ensures forall i :: 0 <= i < |f.phone| ==> IsDigit(f.phone[i])
  {
    FormValidIff(f);
    Utf16LengthBmp(f.phone);
  }
}
