/**
  The form schemas of `src/lib/validations.ts`. A schema is modelled by the list of issue
  messages that parsing a value reports, in the order zod reports them: fields in the
  order the schema declares them and, within a field, checks in the order they are
  chained (zod keeps checking a string or number after one of its checks fails). A value
  is accepted exactly when that list is empty.
 */
module Validations {

  /** An object key that may be absent (`undefined`), `null`, or hold a value. */
  datatype Field<T> = Missing | Null | Given(value: T)

  /** zod's `.int()`: the number has no fractional part. */
  predicate IsInteger(x: real) {
    x.Floor as real == x
  }

  /** `.min(min, minMessage).max(max, maxMessage)` on a string. */
  function LengthIssues(s: string, min: nat, minMessage: string, max: nat, maxMessage: string): (r: seq<string>)
    ensures r == [] <==> min <= |s| <= max
    ensures |s| < min ==> r[0] == minMessage
  {
    (if |s| < min then [minMessage] else []) + (if |s| > max then [maxMessage] else [])
  }

  /** `.int(intMessage).min(min, minMessage).max(max, maxMessage)` on a number. */
  function IntegerRangeIssues(x: real, intMessage: string, min: int, minMessage: string,
                              max: int, maxMessage: string): (r: seq<string>)
    ensures r == [] <==> IsInteger(x) && min as real <= x <= max as real
  {
    (if IsInteger(x) then [] else [intMessage])
    + (if x < min as real then [minMessage] else [])
    + (if x > max as real then [maxMessage] else [])
  }

  /** `.int(intMessage).positive(positiveMessage).max(max, maxMessage)` on a number. */
  function PositiveIntegerIssues(x: real, intMessage: string, positiveMessage: string,
                                 max: int, maxMessage: string): (r: seq<string>)
    ensures r == [] <==> IsInteger(x) && 1.0 <= x <= max as real
  {
    (if IsInteger(x) then [] else [intMessage])
    + (if x > 0.0 then [] else [positiveMessage])
    + (if x > max as real then [maxMessage] else [])
  }

  // ---------------------------------------------------------------------------
  // authSchema

  /** The characters of `/^[a-zA-Z0-9_-]+$/`. */
  predicate UsernameChar(c: char) {
    'a' <= c <= 'z' || 'A' <= c <= 'Z' || '0' <= c <= '9' || c == '_' || c == '-'
  }

  predicate MatchesUsernamePattern(u: string) {
    u != [] && forall i :: 0 <= i < |u| ==> UsernameChar(u[i])
  }

  const UsernameTooShort := "Username-ul trebuie să aibă cel puțin 3 caractere"
  const UsernameTooLong := "Username-ul trebuie să aibă maxim 50 de caractere"
  const UsernameBadChars := "Username-ul poate conține doar litere, cifre, cratimă și underscore"
  const PasswordTooShort := "Parola trebuie să aibă cel puțin 6 caractere"
  const PasswordTooLong := "Parola trebuie să aibă maxim 100 de caractere"

  function AuthIssues(username: string, password: string): (r: seq<string>)
    ensures r == [] <==>
      && 3 <= |username| <= 50
      && (forall i :: 0 <= i < |username| ==> UsernameChar(username[i]))
      && 6 <= |password| <= 100
    ensures |username| < 3 ==> r[0] == UsernameTooShort
  {
    LengthIssues(username, 3, UsernameTooShort, 50, UsernameTooLong)
    + (if MatchesUsernamePattern(username) then [] else [UsernameBadChars])
    + LengthIssues(password, 6, PasswordTooShort, 100, PasswordTooLong)
  }

  // ---------------------------------------------------------------------------
  // fondSchema and compartimentSchema

  function FondIssues(nume: string): (r: seq<string>)
    ensures r == [] <==> 1 <= |nume| <= 200
  {
    LengthIssues(nume, 1, "Numele fondului este obligatoriu",
                 200, "Numele fondului trebuie să aibă maxim 200 de caractere")
  }

  function CompartimentIssues(nume: string): (r: seq<string>)
    ensures r == [] <==> 1 <= |nume| <= 200
  {
    LengthIssues(nume, 1, "Numele compartimentului este obligatoriu",
                 200, "Numele compartimentului trebuie să aibă maxim 200 de caractere")
  }

  // ---------------------------------------------------------------------------
  // inventarSchema

  function InventarIssues(an: real, termenPastrare: real): (r: seq<string>)
    ensures r == [] <==>
      && IsInteger(an) && 1900.0 <= an <= 2100.0
      && IsInteger(termenPastrare) && 1.0 <= termenPastrare <= 999.0
  {
    IntegerRangeIssues(an, "Anul trebuie să fie un număr întreg",
                       1900, "Anul trebuie să fie după 1900",
                       2100, "Anul trebuie să fie înainte de 2100")
    + IntegerRangeIssues(termenPastrare, "Termenul de păstrare trebuie să fie un număr întreg",
                         1, "Termenul de păstrare trebuie să fie pozitiv",
                         999, "Termenul de păstrare trebuie să fie maxim 999 ani")
  }

  // ---------------------------------------------------------------------------
  // dosarSchema

  /** The object handed to `dosarSchema`. The two optional keys may be absent or null;
      the others are given with the type the schema expects. */
  datatype DosarInput = DosarInput(
    nr_crt: real,
    indicativ_nomenclator: string,
    continut: string,
    date_extreme: string,
    numar_file: real,
    observatii: Field<string>,
    nr_cutie: Field<real>)

  /** zod's message for `null` where `z.string()` is expected. */
  const ExpectedStringReceivedNull := "Expected string, received null"

  /** `z.string().max(500).optional()`: absent, or a string of at most 500 characters;
      `null` is a type error. */
  function ObservatiiIssues(f: Field<string>): (r: seq<string>)
    ensures r == [] <==> f.Missing? || (f.Given? && |f.value| <= 500)
  {
    match f
    case Missing => []
    case Null => [ExpectedStringReceivedNull]
    case Given(s) => LengthIssues(s, 0, "", 500, "Observațiile trebuie să aibă maxim 500 de caractere")
  }

  /** `z.number().int().positive().max(9999).optional().nullable()`. */
  function NrCutieIssues(f: Field<real>): (r: seq<string>)
    ensures r == [] <==> !f.Given? || (IsInteger(f.value) && 1.0 <= f.value <= 9999.0)
  {
    match f
    case Missing => []
    case Null => []
    case Given(x) =>
      PositiveIntegerIssues(x, "Numărul cutiei trebuie să fie un număr întreg",
                            "Numărul cutiei trebuie să fie pozitiv",
                            9999, "Numărul cutiei este prea mare")
  }

  /** The messages of `dosarSchema`'s required fields. */
  const NrCrtNotInteger := "Numărul curent trebuie să fie un număr întreg"
  const NrCrtNotPositive := "Numărul curent trebuie să fie pozitiv"
  const NrCrtTooLarge := "Numărul curent este prea mare"
  const IndicativRequired := "Indicativul nomenclator este obligatoriu"
  const IndicativTooLong := "Indicativul nomenclator trebuie să aibă maxim 100 de caractere"
  const ContinutRequired := "Conținutul este obligatoriu"
  const ContinutTooLong := "Conținutul trebuie să aibă maxim 1000 de caractere"
  const DateExtremeRequired := "Datele extreme sunt obligatorii"
  const DateExtremeTooLong := "Datele extreme trebuie să aibă maxim 100 de caractere"
  const NumarFileNotInteger := "Numărul de file trebuie să fie un număr întreg"
  const NumarFileNotPositive := "Numărul de file trebuie să fie pozitiv"
  const NumarFileTooLarge := "Numărul de file este prea mare"

  function DosarIssues(d: DosarInput): (r: seq<string>)
    ensures r == [] <==>
      && IsInteger(d.nr_crt) && 1.0 <= d.nr_crt <= 999999.0
      && 1 <= |d.indicativ_nomenclator| <= 100
      && 1 <= |d.continut| <= 1000
      && 1 <= |d.date_extreme| <= 100
      && IsInteger(d.numar_file) && 1.0 <= d.numar_file <= 999999.0
      && (d.observatii.Missing? || (d.observatii.Given? && |d.observatii.value| <= 500))
      && (!d.nr_cutie.Given? || (IsInteger(d.nr_cutie.value) && 1.0 <= d.nr_cutie.value <= 9999.0))
  {
    PositiveIntegerIssues(d.nr_crt, NrCrtNotInteger, NrCrtNotPositive, 999999, NrCrtTooLarge)
    + LengthIssues(d.indicativ_nomenclator, 1, IndicativRequired, 100, IndicativTooLong)
    + LengthIssues(d.continut, 1, ContinutRequired, 1000, ContinutTooLong)
    + LengthIssues(d.date_extreme, 1, DateExtremeRequired, 100, DateExtremeTooLong)
    + PositiveIntegerIssues(d.numar_file, NumarFileNotInteger, NumarFileNotPositive, 999999, NumarFileTooLarge)
    + ObservatiiIssues(d.observatii)
    + NrCutieIssues(d.nr_cutie)
  }

  /** An empty `observatii` string passes: only its upper bound is checked. */
  lemma EmptyObservatiiAccepted()
    ensures ObservatiiIssues(Given("")) == []
    ensures ObservatiiIssues(Null) != []
  {
  }
}
