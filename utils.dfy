/**
  The display helpers of the web front end that carry logic of their own: the
  required-field check of the forms, the badge shown for a loan status, and the
  "N/A" shown for a missing date.
*/
module Utils {
  import opened Common

  /** A form value as the field check receives it: Python's None, a string, an int or a bool. */
  datatype FieldValue = NoneValue | Text(text: string) | Int(number: int) | Bool(flag: bool)

  /** `str.isspace` for one character: the Unicode whitespace Python's `strip()` removes. */
  predicate IsSpace(c: char)
  {
    || c == ' ' || '\t' <= c <= '\r' || '\U{1c}' <= c <= '\U{1f}'
    || c == '\U{85}' || c == '\U{a0}' || c == '\U{1680}'
    || '\U{2000}' <= c <= '\U{200a}' || c == '\U{2028}' || c == '\U{2029}'
    || c == '\U{202f}' || c == '\U{205f}' || c == '\U{3000}'
  }

  predicate Blank(s: string)
  {
    forall i :: 0 <= i < |s| ==> IsSpace(s[i])
  }

  /** `s` without its leading whitespace. */
  function TrimLeft(s: string): (r: string)
    ensures |r| <= |s| && r == s[|s| - |r|..]
    ensures Blank(s[..|s| - |r|])
    ensures r == [] || !IsSpace(r[0])
    decreases |s|
  {
    if s != [] && IsSpace(s[0]) then
      var r := TrimLeft(s[1..]);
      assert s[..|s| - |r|] == [s[0]] + s[1..][..|s[1..]| - |r|];
      r
    else s
  }

  /** `s` without its trailing whitespace. */
  function TrimRight(s: string): (r: string)
    ensures |r| <= |s| && r == s[..|r|]
    ensures Blank(s[|r|..])
    ensures r == [] || !IsSpace(r[|r| - 1])
    decreases |s|
  {
    if s != [] && IsSpace(s[|s| - 1]) then
      var r := TrimRight(s[..|s| - 1]);
      assert s[|r|..] == s[..|s| - 1][|r|..] + [s[|s| - 1]];
      r
    else s
  }

  /** `str.strip()` with no argument. */
  function Strip(s: string): string
  {
    TrimRight(TrimLeft(s))
  }

  /** A string strips to nothing exactly when every one of its characters is whitespace. */
  lemma StripEmptyIffBlank(s: string)
    ensures Strip(s) == [] <==> Blank(s)
  {
    var l := TrimLeft(s);
    if Strip(s) == [] {
      assert Blank(l[0..]);
      assert l == [];
      assert s[..|s|] == s;
    }
  }

  /** The field check's test, `not value or str(value).strip() == ""`: falsy or blank. */
  predicate Missing(v: FieldValue)
  {
    match v
    case NoneValue => true
    case Text(s) => s == [] || Strip(s) == []
    case Int(n) => n == 0
    case Bool(b) => !b
  }

  /** Falsy values count as missing even though their text is not blank: 0 reads "0", False reads "False". */
  lemma FalsyValuesAreMissing()
    ensures Missing(NoneValue) && Missing(Int(0)) && Missing(Bool(false)) && Missing(Text(""))
    ensures !Missing(Int(-1)) && !Missing(Bool(true))
  {
  }

  /** A string value is missing exactly when it is empty or all whitespace. */
  lemma {:induction false} MissingTextIffBlank(s: string)
    ensures Missing(Text(s)) <==> Blank(s)
  {
    StripEmptyIffBlank(s);
  }

  const VALID_MESSAGE := "Todos los campos son v\U{e1}lidos"

  function RequiredMessage(name: string): string
  {
    "El campo " + name + " es requerido"
  }

  /**
    validate_required_fields: walks the named values in argument order and stops at
    the first missing one. Success exactly when no value is missing; otherwise the
    message names the first missing field.
  */
  method ValidateRequiredFields(fields: seq<(string, FieldValue)>) returns (ok: bool, message: string)
    ensures ok <==> forall i :: 0 <= i < |fields| ==> !Missing(fields[i].1)
    ensures ok ==> message == VALID_MESSAGE
    ensures !ok ==> exists k ::
      && 0 <= k < |fields| && Missing(fields[k].1)
      && (forall j :: 0 <= j < k ==> !Missing(fields[j].1))
      && message == RequiredMessage(fields[k].0)
  {
    var i := 0;
    while i < |fields|
      invariant 0 <= i <= |fields|
      invariant forall j :: 0 <= j < i ==> !Missing(fields[j].1)
    {
      var (name, value) := fields[i];
      if Missing(value) {
        return false, RequiredMessage(name);
      }
      i := i + 1;
    }
    return true, VALID_MESSAGE;
  }

  const ACTIVO_BADGE := "\U{1F7E2} Activo"
  const DEVUELTO_BADGE := "\U{1F535} Devuelto"
  const CANCELADO_BADGE := "\U{1F534} Cancelado"
  const OTHER_MARK := "\U{26AA} "

  /** get_status_badge: a fixed badge for the three loan statuses, and a neutral mark before any other text. */
  function GetStatusBadge(status: string): (badge: string)
    ensures badge != []
  {
    if status == "activo" then ACTIVO_BADGE
    else if status == "devuelto" then DEVUELTO_BADGE
    else if status == "cancelado" then CANCELADO_BADGE
    else OTHER_MARK + status
  }

  /** The status a badge stands for, or None for text no status is shown as. */
  function StatusOfBadge(badge: string): (status: Option<string>)
  {
    if badge == ACTIVO_BADGE then Some("activo")
    else if badge == DEVUELTO_BADGE then Some("devuelto")
    else if badge == CANCELADO_BADGE then Some("cancelado")
    else if |badge| >= |OTHER_MARK| && badge[..|OTHER_MARK|] == OTHER_MARK then Some(badge[|OTHER_MARK|..])
    else None
  }

  /** The three loan statuses get their fixed badges; any other text is shown after the neutral mark. */
  lemma KnownBadges(other: string)
    requires other != "activo" && other != "devuelto" && other != "cancelado"
    ensures GetStatusBadge("activo") == ACTIVO_BADGE
    ensures GetStatusBadge("devuelto") == DEVUELTO_BADGE
    ensures GetStatusBadge("cancelado") == CANCELADO_BADGE
    ensures GetStatusBadge(other) == OTHER_MARK + other
    ensures StatusOfBadge(GetStatusBadge(other)) == Some(other)
  {
    BadgeRoundTrip(other);
  }

  /** Every status can be read back from its badge, so no two statuses share one. */
  lemma BadgeRoundTrip(status: string)
    ensures StatusOfBadge(GetStatusBadge(status)) == Some(status)
  {
    var b := GetStatusBadge(status);
    if b == OTHER_MARK + status {
      assert b[0] == '\U{26AA}';
      assert b[..|OTHER_MARK|] == OTHER_MARK && b[|OTHER_MARK|..] == status;
    }
  }

  /** Two different statuses never get the same badge. */
  lemma BadgeInjective(s: string, t: string)
    requires s != t
    ensures GetStatusBadge(s) != GetStatusBadge(t)
  {
    BadgeRoundTrip(s);
    BadgeRoundTrip(t);
  }

  /** format_date: "N/A" when there is no date; otherwise the date in day/month/year hour:minute form. */
  function FormatDate(date: Option<Timestamp>, strftime: (Timestamp, string) -> string): (r: string)
    ensures date.None? ==> r == "N/A"
    ensures date.Some? ==> r == strftime(date.value, "%d/%m/%Y %H:%M")
  {
    match date
    case None => "N/A"
    case Some(d) => strftime(d, "%d/%m/%Y %H:%M")
  }

  /** format_date_short: "N/A" when there is no date; otherwise the date in day/month/year form. */
  function FormatDateShort(date: Option<Timestamp>, strftime: (Timestamp, string) -> string): (r: string)
    ensures date.None? ==> r == "N/A"
    ensures date.Some? ==> r == strftime(date.value, "%d/%m/%Y")
  {
    match date
    case None => "N/A"
    case Some(d) => strftime(d, "%d/%m/%Y")
  }
}
