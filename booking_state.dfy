/** The booking-list filter the gateway accepts, parsed from its request
    parameter by exact, case-sensitive name. */
module BookingState {
  import opened Common

  /** The enum constants, in declaration order. */
  datatype State = All | Current | Past | Future | Waiting | Rejected | UnsupportedStatus

  /** The constants as `values()` lists them. */
  const Values: seq<State> := [All, Current, Past, Future, Waiting, Rejected, UnsupportedStatus]

  /** `toString()` of a constant: its declared name. */
  function Name(s: State): string {
    match s
    case All => "ALL"
    case Current => "CURRENT"
    case Past => "PAST"
    case Future => "FUTURE"
    case Waiting => "WAITING"
    case Rejected => "REJECTED"
    case UnsupportedStatus => "UNSUPPORTED_STATUS"
  }

  /** `value` is the name of some constant. */
  predicate IsName(value: Option<string>) {
    exists s: State :: value == Some(Name(s))
  }

  /** The loop of `fromValue` from position `i` of `values()` on: the first
      constant whose name equals `value`, otherwise `UNSUPPORTED_STATUS`. */
  function FindFrom(value: Option<string>, i: nat): (r: State)
    requires i <= |Values|
    ensures r == UnsupportedStatus || value == Some(Name(r))
    ensures (exists j :: i <= j < |Values| && value == Some(Name(Values[j]))) ==> value == Some(Name(r))
    decreases |Values| - i
  {
    if i == |Values| then UnsupportedStatus
    else if Some(Name(Values[i])) == value then Values[i]
    else FindFrom(value, i + 1)
  }

  /** `State.fromValue`: total, `null` included, since `equals(null)` is false. */
  function FromValue(value: Option<string>): (r: State)
    ensures r == UnsupportedStatus || value == Some(Name(r))
    ensures IsName(value) ==> value == Some(Name(r))
    ensures !IsName(value) ==> r == UnsupportedStatus
  {
    SearchFindsEveryName(value);
    FindFrom(value, 0)
  }

  /** `values()` lists every constant. */
  lemma Listed(s: State)
    ensures s in Values
  {
  }

  /** Searching all of `values()` finds any constant's name. */
  lemma SearchFindsEveryName(value: Option<string>)
    ensures IsName(value) ==> value == Some(Name(FindFrom(value, 0)))
  {
    if IsName(value) {
      var s: State :| value == Some(Name(s));
      Listed(s);
      var j :| 0 <= j < |Values| && Values[j] == s;
      assert value == Some(Name(Values[j]));
    }
  }

  /** No two constants share a name, so the first match is the only one. */
  lemma NamesDistinct(s: State, t: State)
    ensures Name(s) == Name(t) ==> s == t
  {
  }

  /** Parsing a constant's name gives the constant back, for all seven. */
  lemma RoundTrip(s: State)
    ensures FromValue(Some(Name(s))) == s
  {
    var r := FromValue(Some(Name(s)));
    assert IsName(Some(Name(s)));
    NamesDistinct(r, s);
  }

  /** Matching is exact: lower-case spellings are unsupported. */
  lemma LowerCaseUnsupported()
    ensures FromValue(Some("all")) == UnsupportedStatus
    ensures FromValue(Some("waiting")) == UnsupportedStatus
  {
    assert !IsName(Some("all")) by {
      forall s: State ensures Some("all") != Some(Name(s)) {
        assert Name(s)[0] != 'a';
      }
    }
    assert !IsName(Some("waiting")) by {
      forall s: State ensures Some("waiting") != Some(Name(s)) {
        assert Name(s)[0] != 'w';
      }
    }
  }

  /** A null parameter is unsupported, not an error. */
  lemma NullUnsupported()
    ensures FromValue(None) == UnsupportedStatus
  {
  }
}
