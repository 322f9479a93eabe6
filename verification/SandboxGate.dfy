/** The sandbox gate: a context resolved at most once per request, and the days it has left. */
module SandboxGate {
  import opened Wrappers

  /** The `flags` column as a driver may return it; text may fail to parse. */
  datatype RawFlags = NoFlags | Decoded(flags: map<string, bool>) | Encoded(parsed: Option<map<string, bool>>)

  datatype Row = Row(sandboxId: string, tenantId: string, workspaceId: string, status: string,
                     expiresAt: Option<int>, flags: RawFlags)

  datatype Context = Context(isSandbox: bool, row: Option<Row>, flags: map<string, bool>)

  const UNRESTRICTED := Context(false, None, map[])

  function FlagsOf(raw: RawFlags): map<string, bool> {
    match raw
    case NoFlags => map[]
    case Decoded(flags) => flags
    case Encoded(parsed) => parsed.GetOr(map[])
  }

  /** `_load_sandbox_context` on what the database returns at that moment. */
  function Load(found: Option<Row>): Context {
    if found.None? then UNRESTRICTED else Context(true, found, FlagsOf(found.value.flags))
  }

  /** `require_flag_false` lets the request through. */
  predicate Permits(c: Context, flag: string) {
    !(c.isSandbox && flag in c.flags && c.flags[flag])
  }

  /** The request's cache, and how often the database was asked. */
  datatype Cache = Cache(context: Option<Context>, lookups: nat)

  function Resolve(cache: Cache, role: string, found: Option<Row>): (Context, Cache) {
    if role == "platform_admin" then (UNRESTRICTED, cache)
    else if cache.context.Some? then (cache.context.value, cache)
    else (Load(found), Cache(Some(Load(found)), cache.lookups + 1))
  }

  class RequestState {
    var context: Option<Context>
    ghost var lookups: nat

    ghost function Value(): Cache
      reads this
    {
      Cache(context, lookups)
    }

    constructor ()
      ensures Value() == Cache(None, 0)
    {
      context, lookups := None, 0;
    }

    method GetSandboxContext(role: string, found: Option<Row>) returns (c: Context)
      modifies this
      ensures (c, Value()) == Resolve(old(Value()), role, found)
    {
      if role == "platform_admin" {
        return UNRESTRICTED;
      }
      if context.Some? {
        return context.value;
      }
      c := Load(found);
      lookups := lookups + 1;
      context := Some(c);
    }
  }

  /** The contexts that a request's resolutions return, the database changing in between. */
  function Resolutions(role: string, founds: seq<Option<Row>>): (seq<Context>, Cache) {
    if founds == [] then ([], Cache(None, 0))
    else
      var (results, cache) := Resolutions(role, founds[..|founds| - 1]);
      var (c, after) := Resolve(cache, role, founds[|founds| - 1]);
      (results + [c], after)
  }

  /** One lookup answers a whole request: every resolution returns what the first one found. */
  lemma {:induction false} OneLookupPerRequest(role: string, founds: seq<Option<Row>>)
    requires role != "platform_admin"
    ensures var (results, cache) := Resolutions(role, founds);
      && |results| == |founds|
      && (forall i :: 0 <= i < |results| ==> results[i] == Load(founds[0]))
      && cache == if founds == [] then Cache(None, 0) else Cache(Some(Load(founds[0])), 1)
  {
    if founds != [] {
      OneLookupPerRequest(role, founds[..|founds| - 1]);
    }
  }

  /** The access profile sets the flag: decoded by the driver, or as text that parses. */
  ghost predicate FlagIsSet(row: Row, flag: string) {
    exists flags: map<string, bool> ::
      (row.flags == Decoded(flags) || row.flags == Encoded(Some(flags))) && flag in flags && flags[flag]
  }

  /** Every resolution refuses a flag exactly when the first lookup found a sandbox that sets it. */
  lemma FlagIsRefused(role: string, founds: seq<Option<Row>>, flag: string, i: nat)
    requires role != "platform_admin" && i < |founds|
    ensures var (results, cache) := Resolutions(role, founds);
      && i < |results|
      && (!Permits(results[i], flag) <==> founds[0].Some? && FlagIsSet(founds[0].value, flag))
      && (results[i].isSandbox <==> founds[0].Some?) && results[i].row == founds[0]
  {
    OneLookupPerRequest(role, founds);
    if founds[0].Some? {
      var raw := founds[0].value.flags;
      if raw.Decoded? {
        assert raw == Decoded(raw.flags);
      } else if raw.Encoded? && raw.parsed.Some? {
        assert raw == Encoded(Some(raw.parsed.value));
      }
    }
  }

  lemma {:induction false} AdministratorIsNeverRestricted(founds: seq<Option<Row>>, flag: string)
    ensures var (results, cache) := Resolutions("platform_admin", founds);
      && |results| == |founds| && cache == Cache(None, 0)
      && forall i :: 0 <= i < |results| ==> Permits(results[i], flag)
  {
    if founds != [] {
      AdministratorIsNeverRestricted(founds[..|founds| - 1], flag);
    }
  }

  // ---------------------------------------------------------------------------------------
  // Remaining days, in exact microseconds
  // ---------------------------------------------------------------------------------------

  const DAY := 86_400_000_000

  function Ceiling(numerator: int, denominator: int): int
    requires denominator > 0
  {
    -((-numerator) / denominator)
  }

  function RemainingDays(expiresAt: Option<int>, now: int): int {
    if expiresAt.None? then 0
    else
      var days := Ceiling(expiresAt.value - now, DAY);
      if days < 0 then 0 else days
  }

  /** The fewest whole days from now that reach the expiry; a day later, one fewer, never below zero. */
  lemma RemainingDaysCountDown(expiresAt: int, now: int)
    ensures var r := RemainingDays(Some(expiresAt), now);
      && r >= 0 && expiresAt <= now + r * DAY
      && (r > 0 ==> now + (r - 1) * DAY < expiresAt)
      && RemainingDays(Some(expiresAt), now + DAY) == (if r > 0 then r - 1 else 0)
      && RemainingDays(None, now) == 0
  {
    var total := expiresAt - now;
    var q := (-total) / DAY;
    assert (-(total - DAY)) / DAY == q + 1;
  }
}
