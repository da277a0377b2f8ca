/**
 * The HTTP request methods known to the OkHttp helpers: eight constants,
 * each carrying whether it requires a request body, whether it is safe and
 * whether it is idempotent (section 9.2.1 and section 9.2.2 of RFC 9110),
 * and a case-insensitive parser of method names.
 */
module HttpMethods {
  import opened Wrappers
  import opened Jvm

  /** The enum constants, in declaration order. */
  datatype HttpMethod = GET | POST | PUT | DELETE | PATCH | HEAD | OPTIONS | TRACE {

    /** The constructor property `requiresBody`, `false` unless a constant passes `true`. */
    predicate RequiresBody() {
      match this
      case POST => true
      case PUT => true
      case PATCH => true
      case _ => false
    }

    /** `isSafe`: membership in the fixed set of safe methods. */
    predicate IsSafe() {
      this in {GET, HEAD, OPTIONS, TRACE}
    }

    /** `isIdempotent`: membership in the fixed set of idempotent methods. */
    predicate IsIdempotent() {
      this in {GET, PUT, DELETE, HEAD, OPTIONS, TRACE}
    }

    /** The enum constant's `name`. */
    function Name(): string {
      match this
      case GET => "GET"
      case POST => "POST"
      case PUT => "PUT"
      case DELETE => "DELETE"
      case PATCH => "PATCH"
      case HEAD => "HEAD"
      case OPTIONS => "OPTIONS"
      case TRACE => "TRACE"
    }
  }

  /** `HttpMethod.entries`, the constants in declaration order. */
  const Entries: seq<HttpMethod> := [GET, POST, PUT, DELETE, PATCH, HEAD, OPTIONS, TRACE]

  /** The prefix of the exception message `parse` throws. */
  const UnknownMethodPrefix: string := "Unknown HTTP method: "

  /** Every constant is an entry. */
  lemma EntriesComplete(m: HttpMethod)
    ensures m in Entries
  {
  }

  /** The entry of `entries` whose name is `name` (names are distinct); `None` where `valueOf` throws. */
  function FindByName(entries: seq<HttpMethod>, name: string): (r: Option<HttpMethod>)
    ensures r.Some? ==> r.value in entries && r.value.Name() == name
    ensures r.None? ==> forall m :: m in entries ==> m.Name() != name
    ensures r.Some? ==> forall k :: 0 <= k < |entries| && entries[k].Name() == name ==> entries[k] == r.value
  {
    if entries == [] then None
    else if entries[0].Name() == name then Some(entries[0])
    else FindByName(entries[1..], name)
  }

  /** `HttpMethod.valueOf(name)`: the constant with exactly this name, if any. */
  function ValueOf(name: string): (r: Option<HttpMethod>)
    ensures r.Some? ==> r.value.Name() == name
    ensures r.None? <==> forall m: HttpMethod :: m.Name() != name
  {
    FindByName(Entries, name)
  }

  /**
   * `HttpMethod.parse(method)`: `valueOf(method.uppercase())`, rethrowing a
   * failure as "Unknown HTTP method: <spelling>" with the caller's spelling.
   */
  function Parse(spelling: string): (r: Result<HttpMethod, string>)
    requires IsAscii(spelling)
    ensures r.Success? <==> exists m: HttpMethod :: m.Name() == Upper(spelling)
    ensures r.Success? ==> r.value.Name() == Upper(spelling)
    ensures r.Failure? ==> r.error == UnknownMethodPrefix + spelling
  {
    match ValueOf(Upper(spelling))
    case Some(m) => Success(m)
    case None => Failure(UnknownMethodPrefix + spelling)
  }

  // ---------------------------------------------------------------- properties

  /** Requiring a body is the property of exactly POST, PUT and PATCH. */
  lemma RequiresBodyExactly(m: HttpMethod)
    ensures m.RequiresBody() <==> (m == POST || m == PUT || m == PATCH)
    ensures !m.RequiresBody() <==> m in {GET, DELETE, HEAD, OPTIONS, TRACE}
  {
  }

  /** Safe methods in the sense of section 9.2.1 of RFC 9110. */
  lemma SafeExactly(m: HttpMethod)
    ensures m.IsSafe() <==> (m == GET || m == HEAD || m == OPTIONS || m == TRACE)
  {
  }

  /**
   * Section 9.2.2 of RFC 9110: PUT, DELETE and the safe methods are the
   * idempotent ones (GET, PUT, DELETE, HEAD, OPTIONS, TRACE).
   */
  lemma IdempotentIsSafeOrPutOrDelete(m: HttpMethod)
    ensures m.IsIdempotent() <==> (m.IsSafe() || m == PUT || m == DELETE)
  {
  }

  /** Every safe method is idempotent; POST and PATCH are neither. */
  lemma SafeImpliesIdempotent(m: HttpMethod)
    ensures m.IsSafe() ==> m.IsIdempotent()
    ensures !POST.IsSafe() && !POST.IsIdempotent()
    ensures !PATCH.IsSafe() && !PATCH.IsIdempotent()
  {
  }

  /** No safe method requires a body. */
  lemma SafeNeedsNoBody(m: HttpMethod)
    ensures m.IsSafe() ==> !m.RequiresBody()
  {
  }

  /** Different constants have different names. */
  lemma NameInjective(m: HttpMethod, n: HttpMethod)
    ensures m.Name() == n.Name() ==> m == n
  {
  }

  /** Every name is spelled in upper case already. */
  lemma UpperOfName(m: HttpMethod)
    ensures IsAscii(m.Name())
    ensures Upper(m.Name()) == m.Name()
  {
    var n := m.Name();
    assert forall i :: 0 <= i < |n| ==> 'A' <= n[i] <= 'Z';
    assert forall i :: 0 <= i < |n| ==> Upper(n)[i] == n[i];
  }

  /** Any spelling that upper-cases to a constant's name parses to that constant. */
  lemma ParseAnyCase(m: HttpMethod, s: string)
    requires IsAscii(s) && Upper(s) == m.Name()
    ensures Parse(s) == Success(m)
  {
    NameInjective(m, Parse(s).value);
  }

  /** Round trip: the name, its lower-case and its mixed-case spellings all parse back. */
  lemma {:induction false} ParseName(m: HttpMethod, s: string)
    ensures Parse(m.Name()) == Success(m)
    ensures IsAscii(Lower(m.Name())) && Parse(Lower(m.Name())) == Success(m)
    ensures IsAscii(s) && Upper(s) == m.Name() ==> Parse(s) == Success(m)
  {
    UpperOfName(m);
    ParseAnyCase(m, m.Name());
    var l := Lower(m.Name());
    assert forall i :: 0 <= i < |l| ==> l[i] == LowerChar(m.Name()[i]);
    UpperOfLower(m.Name());
    ParseAnyCase(m, l);
    if IsAscii(s) && Upper(s) == m.Name() {
      ParseAnyCase(m, s);
    }
  }

  /** `parse` fails exactly on the spellings that upper-case to no name, keeping the input in the message. */
  lemma ParseFailsOnUnknown(s: string)
    requires IsAscii(s)
    ensures Parse(s).Failure? <==> Upper(s) !in {"GET", "POST", "PUT", "DELETE", "PATCH", "HEAD", "OPTIONS", "TRACE"}
    ensures Parse(s).Failure? ==> Parse(s).error == "Unknown HTTP method: " + s
  {
    if Upper(s) in {"GET", "POST", "PUT", "DELETE", "PATCH", "HEAD", "OPTIONS", "TRACE"} {
      var m :| m in Entries && m.Name() == Upper(s);
    }
  }
}
