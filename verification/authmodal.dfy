/** The form logic of components/AuthModal.tsx: the password-strength score
    and its label, and the update of one form field. */
module AuthModal {
  import opened Strings

  /** The four tests of the strength score. */
  datatype Criterion = LongEnough | HasUpper | HasDigit | HasSymbol

  const AllCriteria: seq<Criterion> := [LongEnough, HasUpper, HasDigit, HasSymbol]

  /** Whether a password passes one test: `length >= 8` counts UTF-16 code
      units; `[A-Z]`, `[0-9]` and `[^A-Za-z0-9]` each ask for one matching
      character somewhere. */
  predicate Meets(password: string, c: Criterion) {
    match c
    case LongEnough => Utf16Length(password) >= 8
    case HasUpper => exists i :: 0 <= i < |password| && IsAsciiUpper(password[i])
    case HasDigit => exists i :: 0 <= i < |password| && IsAsciiDigit(password[i])
    case HasSymbol => exists i :: 0 <= i < |password| && !IsAsciiLetter(password[i]) && !IsAsciiDigit(password[i])
  }

  /** How many of the given tests a password passes. */
  function Count(password: string, cs: seq<Criterion>): (n: nat)
    ensures n <= |cs|
  {
    if |cs| == 0 then 0
    else (if Meets(password, cs[0]) then 1 else 0) + Count(password, cs[1..])
  }

  /** `getPasswordStrength`: 25 points for each test passed. */
  function Strength(password: string): (r: nat)
    ensures r == 25 * Count(password, AllCriteria)
    ensures r in {0, 25, 50, 75, 100}
    ensures r == 0 <==> forall c :: !Meets(password, c)
    ensures r == 100 <==> forall c :: Meets(password, c)
  {
    var length := if Meets(password, LongEnough) then 25 else 0;
    var upper := if Meets(password, HasUpper) then 25 else 0;
    var digit := if Meets(password, HasDigit) then 25 else 0;
    var symbol := if Meets(password, HasSymbol) then 25 else 0;
    CountAll(password);
    length + upper + digit + symbol
  }

  /** `Count` over the four tests, one at a time. */
  lemma CountAll(p: string)
    ensures Count(p, AllCriteria) ==
      (if Meets(p, LongEnough) then 1 else 0) + (if Meets(p, HasUpper) then 1 else 0)
      + (if Meets(p, HasDigit) then 1 else 0) + (if Meets(p, HasSymbol) then 1 else 0)
  {
    var c1: seq<Criterion> := [HasUpper, HasDigit, HasSymbol];
    var c2: seq<Criterion> := [HasDigit, HasSymbol];
    var c3: seq<Criterion> := [HasSymbol];
    assert AllCriteria[1..] == c1 && c1[1..] == c2 && c2[1..] == c3 && c3[1..] == [];
    assert Count(p, c3) == (if Meets(p, HasSymbol) then 1 else 0);
    assert Count(p, c2) == (if Meets(p, HasDigit) then 1 else 0) + Count(p, c3);
    assert Count(p, c1) == (if Meets(p, HasUpper) then 1 else 0) + Count(p, c2);
  }

  /** The empty password passes no test. */
  lemma EmptyScoresZero()
    ensures Strength("") == 0
  {
    assert !Meets("", LongEnough);
  }

  /** Passing one more test, with the others unchanged, adds exactly 25. */
  lemma OneMoreCriterion(p: string, q: string, c: Criterion)
    requires !Meets(p, c) && Meets(q, c)
    requires forall d :: d != c ==> (Meets(p, d) <==> Meets(q, d))
    ensures Strength(q) == Strength(p) + 25
  {
  }

  /** Every test a password passes is still passed once more text is
      appended to it. */
  lemma AppendKeepsCriterion(p: string, q: string, c: Criterion)
    requires Meets(p, c)
    ensures Meets(p + q, c)
  {
    var pq := p + q;
    match c
    case LongEnough => Utf16LengthAppend(p, q);
    case HasUpper =>
      var i :| 0 <= i < |p| && IsAsciiUpper(p[i]);
      assert pq[i] == p[i];
    case HasDigit =>
      var i :| 0 <= i < |p| && IsAsciiDigit(p[i]);
      assert pq[i] == p[i];
    case HasSymbol =>
      var i :| 0 <= i < |p| && !IsAsciiLetter(p[i]) && !IsAsciiDigit(p[i]);
      assert pq[i] == p[i];
  }

  /** Typing more characters never lowers the strength. */
  lemma AppendNeverLowers(p: string, q: string)
    ensures Strength(p) <= Strength(p + q)
  {
    forall c | Meets(p, c) ensures Meets(p + q, c) {
      AppendKeepsCriterion(p, q, c);
    }
  }

  datatype Label = Weak | Medium | Strong

  /** The strength text: below 50 weak, below 75 medium, otherwise strong. */
  function LabelOf(strength: nat): Label {
    if strength < 50 then Weak else if strength < 75 then Medium else Strong
  }

  function LabelText(l: Label): (t: string)
    ensures |t| > 0
  {
    match l
    case Weak => "Слабый"
    case Medium => "Средний"
    case Strong => "Сильный"
  }

  /** In terms of the tests: weak with at most one test passed, medium with
      exactly two, strong with three or four. */
  lemma LabelByCriteria(p: string)
    ensures LabelOf(Strength(p)) == Weak <==> Count(p, AllCriteria) <= 1
    ensures LabelOf(Strength(p)) == Medium <==> Count(p, AllCriteria) == 2
    ensures LabelOf(Strength(p)) == Strong <==> Count(p, AllCriteria) >= 3
  {
  }

  /** The three label texts are distinct. */
  lemma LabelTextsDiffer(a: Label, b: Label)
    requires a != b
    ensures LabelText(a) != LabelText(b)
  {
    assert LabelText(Weak)[1] != LabelText(Medium)[1];
    assert LabelText(Weak)[1] != LabelText(Strong)[1];
    assert LabelText(Medium)[1] != LabelText(Strong)[1];
  }

  /** The form state: `formData` and `errors`, both keyed by field name. */
  datatype Form = Form(data: map<string, string>, errors: map<string, string>)

  /** The state on opening: four empty fields and no errors. */
  const InitialForm: Form :=
    Form(map["fullName" := "", "email" := "", "password" := "", "confirmPassword" := ""], map[])

  /** `errors[field]` read as a condition: an absent key and the empty string
      are both falsy. */
  predicate HasError(errors: map<string, string>, field: string) {
    field in errors && errors[field] != ""
  }

  /** `handleInputChange(field, value)`: the field takes the value, every
      other field is unchanged, and the field's error is blanked only when it
      was set; every other error is unchanged. */
  function HandleInputChange(f: Form, field: string, value: string): (r: Form)
    ensures r.data.Keys == f.data.Keys + {field}
    ensures r.data[field] == value
    ensures forall k :: k in f.data && k != field ==> r.data[k] == f.data[k]
    ensures HasError(f.errors, field) ==> r.errors.Keys == f.errors.Keys && r.errors[field] == ""
    ensures !HasError(f.errors, field) ==> r.errors == f.errors
    ensures forall k :: k in f.errors && k != field ==> k in r.errors && r.errors[k] == f.errors[k]
    ensures !HasError(r.errors, field)
  {
    var data := f.data[field := value];
    var errors := if HasError(f.errors, field) then f.errors[field := ""] else f.errors;
    Form(data, errors)
  }

  /** Repeating the same edit changes nothing more. */
  lemma InputChangeIdempotent(f: Form, field: string, value: string)
    ensures var once := HandleInputChange(f, field, value);
      HandleInputChange(once, field, value) == once
  {
    var once := HandleInputChange(f, field, value);
    assert once.data[field := value] == once.data;
  }

  /** After an edit of the password field the strength shown is the strength
      of the typed value. */
  lemma StrengthFollowsPasswordField(f: Form, value: string)
    ensures Strength(HandleInputChange(f, "password", value).data["password"]) == Strength(value)
  {
  }
}
