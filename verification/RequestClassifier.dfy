/**
 * The request classifier of the correlation middleware: six anchored patterns name an operation,
 * and an independent, unanchored search finds the tenant id in the path.
 */
module RequestClassifier {
  import opened Wrappers
  import opened Ascii

  /** One position of a pattern: a literal character, `[0-9a-f]`, or `[89ab]`. */
  datatype Item = Lit(c: char) | Hex | Variant

  predicate Fits(item: Item, c: char, ignoreCase: bool) {
    var d := if ignoreCase then Lower(c) else c;
    match item
    case Lit(l) => if ignoreCase then d == Lower(l) else d == l
    case Hex => '0' <= d <= '9' || 'a' <= d <= 'f'
    case Variant => d == '8' || d == '9' || d == 'a' || d == 'b'
  }

  predicate MatchesAt(items: seq<Item>, ignoreCase: bool, s: string, at: nat) {
    at + |items| <= |s| && forall i :: 0 <= i < |items| ==> Fits(items[i], s[at + i], ignoreCase)
  }

  /** `$`: at the end, or before a newline that ends the text. */
  predicate AtDollar(s: string, i: nat) {
    i == |s| || (i + 1 == |s| && s[i] == '\n')
  }

  function Literal(s: string): seq<Item> {
    seq(|s|, i requires 0 <= i < |s| => Lit(s[i]))
  }

  const UUID_LENGTH := 36

  /** The version 4 UUID pattern of RFC 9562, section 5.4, position by position. */
  function UuidItem(i: nat): Item {
    if i == 8 || i == 13 || i == 18 || i == 23 then Lit('-')
    else if i == 14 then Lit('4')
    else if i == 19 then Variant
    else Hex
  }

  function UuidItems(): seq<Item> {
    seq(UUID_LENGTH, i requires 0 <= i < UUID_LENGTH => UuidItem(i))
  }

  const BASE := "/api/v1/tenants"

  datatype Operation = Operation(verb: string, perTenant: bool, suffix: string, ignoreCase: bool, name: string)

  const OPERATIONS: seq<Operation> := [
    Operation("GET", true, "/audit-logs", true, "list_audit_logs"),
    Operation("POST", true, "/status", true, "change_status"),
    Operation("GET", true, "", true, "get_tenant_detail"),
    Operation("PATCH", true, "", true, "update_tenant"),
    Operation("POST", false, "", false, "create_tenant"),
    Operation("GET", false, "", false, "list_tenants")]

  /** What an operation's pattern expects after the verb and the blank. */
  function PathItems(op: Operation): seq<Item> {
    Literal(BASE) + if op.perTenant then Literal("/") + UuidItems() + Literal(op.suffix) else []
  }

  function KeyItems(op: Operation): seq<Item> {
    Literal(op.verb) + Literal(" ") + PathItems(op)
  }

  /** `pattern.match(key)`. */
  predicate PatternMatches(op: Operation, key: string) {
    MatchesAt(KeyItems(op), op.ignoreCase, key, 0) && AtDollar(key, |KeyItems(op)|)
  }

  function KeyOf(method_: string, path: string): string {
    UpperAll(method_) + " " + path
  }

  function FirstMatch(ops: seq<Operation>, key: string): Option<Operation> {
    if ops == [] then None
    else if PatternMatches(ops[0], key) then Some(ops[0])
    else FirstMatch(ops[1..], key)
  }

  function InferOperation(method_: string, path: string): string {
    match FirstMatch(OPERATIONS, KeyOf(method_, path))
    case Some(op) => op.name
    case None => "unknown"
  }

  const TENANT_PREFIX := "/api/v1/tenants/"

  predicate EndsSegment(path: string, i: nat) {
    (i < |path| && path[i] == '/') || AtDollar(path, i)
  }

  predicate TenantIdAt(path: string, at: nat) {
    && MatchesAt(Literal(TENANT_PREFIX) + UuidItems(), true, path, at)
    && EndsSegment(path, at + |TENANT_PREFIX| + UUID_LENGTH)
  }

  /** `search`: the leftmost position from `at` on where the pattern matches. */
  function SearchFrom(path: string, at: nat): (r: Option<nat>)
    ensures r.Some? ==> r.value >= at && TenantIdAt(path, r.value)
    ensures r.Some? ==> forall i :: at <= i < r.value ==> !TenantIdAt(path, i)
    ensures r.None? ==> forall i :: at <= i ==> !TenantIdAt(path, i)
    decreases |path| - at
  {
    if at >= |path| then None
    else if TenantIdAt(path, at) then Some(at)
    else SearchFrom(path, at + 1)
  }

  function TenantSegment(path: string, at: nat): string
    requires TenantIdAt(path, at)
  {
    path[at + |TENANT_PREFIX|..at + |TENANT_PREFIX| + UUID_LENGTH]
  }

  function ExtractTenantId(path: string): Option<string> {
    var found := SearchFrom(path, 0);
    if found.Some? then Some(LowerAll(TenantSegment(path, found.value))) else None
  }

  // ---------------------------------------------------------------------------------------
  // At most one operation
  // ---------------------------------------------------------------------------------------

  predicate NoBlank(s: string) {
    forall i :: 0 <= i < |s| ==> s[i] != ' '
  }

  lemma OperationFacts(i: nat)
    requires i < |OPERATIONS|
    ensures var op := OPERATIONS[i];
      && NoBlank(op.verb) && NoBlank(op.suffix)
      && op.ignoreCase == op.perTenant
      && (op.suffix != "" ==> op.suffix[0] == '/')
      && (!op.perTenant ==> op.suffix == "")
      && |KeyItems(op)| == [67, 64, 56, 58, 20, 19][i]
  {
  }

  /** No request key fits two of the six patterns, so their order in the list does not matter. */
  lemma AtMostOneOperation(key: string, i: nat, j: nat)
    requires i < |OPERATIONS| && j < |OPERATIONS|
    requires PatternMatches(OPERATIONS[i], key) && PatternMatches(OPERATIONS[j], key)
    ensures i == j
  {
    OperationFacts(i);
    OperationFacts(j);
    if i >= 4 {
      assert KeyItems(OPERATIONS[i])[0] == Lit(OPERATIONS[i].verb[0]);
    }
    if j >= 4 {
      assert KeyItems(OPERATIONS[j])[0] == Lit(OPERATIONS[j].verb[0]);
    }
  }

  lemma {:induction false} FirstMatchIs(ops: seq<Operation>, key: string, i: nat)
    requires i < |ops| && PatternMatches(ops[i], key)
    requires forall k :: 0 <= k < i ==> !PatternMatches(ops[k], key)
    ensures FirstMatch(ops, key) == Some(ops[i])
  {
    if i > 0 {
      assert ops[1..][i - 1] == ops[i];
      FirstMatchIs(ops[1..], key, i - 1);
    }
  }

  lemma {:induction false} FirstMatchFits(ops: seq<Operation>, key: string) returns (i: nat)
    requires FirstMatch(ops, key).Some?
    ensures i < |ops| && ops[i] == FirstMatch(ops, key).value && PatternMatches(ops[i], key)
  {
    if PatternMatches(ops[0], key) {
      i := 0;
    } else {
      var k := FirstMatchFits(ops[1..], key);
      i := k + 1;
    }
  }

  lemma NamesDiffer(k: nat, i: nat)
    requires k < |OPERATIONS| && i < |OPERATIONS|
    ensures OPERATIONS[k].name == OPERATIONS[i].name ==> k == i
    ensures OPERATIONS[i].name != "unknown"
  {
    var lengths := [15, 13, 17, 13, 13, 12];
    assert forall j :: 0 <= j < 6 ==> |OPERATIONS[j].name| == lengths[j];
    assert OPERATIONS[1].name[0] == OPERATIONS[4].name[0] == 'c';
    assert OPERATIONS[1].name[1] == 'h' && OPERATIONS[4].name[1] == 'r' && OPERATIONS[3].name[0] == 'u';
  }

  /** The name a request gets is that of the pattern it fits, whichever position the pattern has. */
  lemma OperationIsTheMatchingOne(method_: string, path: string, i: nat)
    requires i < |OPERATIONS|
    ensures PatternMatches(OPERATIONS[i], KeyOf(method_, path))
       <==> InferOperation(method_, path) == OPERATIONS[i].name
  {
    var key := KeyOf(method_, path);
    if PatternMatches(OPERATIONS[i], key) {
      forall k | 0 <= k < i ensures !PatternMatches(OPERATIONS[k], key) {
        if PatternMatches(OPERATIONS[k], key) {
          AtMostOneOperation(key, k, i);
        }
      }
      FirstMatchIs(OPERATIONS, key, i);
    } else if FirstMatch(OPERATIONS, key).Some? {
      var k := FirstMatchFits(OPERATIONS, key);
      NamesDiffer(k, i);
    } else {
      NamesDiffer(i, i);
    }
  }

  // ---------------------------------------------------------------------------------------
  // The two ways of reading a request agree
  // ---------------------------------------------------------------------------------------

  lemma UuidHasNoBlank(i: nat)
    requires i < UUID_LENGTH
    ensures UuidItems()[i] != Lit(' ')
  {
  }

  lemma PathItemsHaveNoBlank(op: Operation, i: nat)
    requires NoBlank(op.suffix) && i < |PathItems(op)|
    ensures PathItems(op)[i] != Lit(' ')
  {
    if i < |BASE| {
      assert PathItems(op)[i] == Lit(BASE[i]);
    } else {
      var rest := Literal("/") + UuidItems() + Literal(op.suffix);
      assert PathItems(op) == Literal(BASE) + rest;
      assert PathItems(op)[i] == rest[i - |BASE|];
      if 1 <= i - |BASE| < 1 + UUID_LENGTH {
        UuidHasNoBlank(i - |BASE| - 1);
      }
    }
  }

  /** The only blank a pattern admits separates the verb from the path. */
  lemma BlankEndsVerb(op: Operation, i: nat)
    requires NoBlank(op.verb) && NoBlank(op.suffix)
    requires i < |KeyItems(op)|
    ensures Fits(KeyItems(op)[i], ' ', op.ignoreCase) ==> i == |op.verb|
  {
    if i < |op.verb| {
      assert KeyItems(op)[i] == Lit(op.verb[i]);
    } else if i > |op.verb| {
      assert KeyItems(op)[i] == PathItems(op)[i - |op.verb| - 1];
      PathItemsHaveNoBlank(op, i - |op.verb| - 1);
    }
  }

  /** A request key that fits a pattern splits where the pattern does, whatever the method string. */
  lemma MatchSplitsKey(op: Operation, method_: string, path: string)
    requires NoBlank(op.verb) && NoBlank(op.suffix)
    requires PatternMatches(op, KeyOf(method_, path))
    ensures |method_| == |op.verb|
    ensures MatchesAt(PathItems(op), op.ignoreCase, path, 0) && AtDollar(path, |PathItems(op)|)
  {
    var key, k := KeyOf(method_, path), |method_|;
    assert key[k] == ' ';
    assert k < |KeyItems(op)|;
    assert Fits(KeyItems(op)[k], key[0 + k], op.ignoreCase);
    BlankEndsVerb(op, k);
    assert key[k + 1..] == path;
    forall i | 0 <= i < |PathItems(op)| ensures Fits(PathItems(op)[i], path[i], op.ignoreCase) {
      assert KeyItems(op)[k + 1 + i] == PathItems(op)[i];
      assert Fits(KeyItems(op)[k + 1 + i], key[0 + (k + 1 + i)], op.ignoreCase);
      assert path[i] == key[k + 1 + i];
    }
    if |PathItems(op)| < |path| {
      assert path[|PathItems(op)|] == key[|KeyItems(op)|];
    }
  }

  lemma TenantPathStartsWithId(op: Operation, path: string)
    requires op.perTenant && op.ignoreCase && (op.suffix != "" ==> op.suffix[0] == '/')
    requires MatchesAt(PathItems(op), true, path, 0) && AtDollar(path, |PathItems(op)|)
    ensures TenantIdAt(path, 0)
  {
    var prefix := Literal(TENANT_PREFIX) + UuidItems();
    var end := |TENANT_PREFIX| + UUID_LENGTH;
    assert Literal(TENANT_PREFIX) == Literal(BASE) + Literal("/");
    assert PathItems(op) == prefix + Literal(op.suffix);
    forall i | 0 <= i < |prefix| ensures Fits(prefix[i], path[0 + i], true) {
      assert prefix[i] == PathItems(op)[i];
    }
    if op.suffix != "" {
      assert PathItems(op)[end] == Lit(op.suffix[0]);
      assert Fits(PathItems(op)[end], path[0 + end], true);
    }
  }

  lemma ShortPathHasNoId(path: string)
    requires |path| < |TENANT_PREFIX| + UUID_LENGTH
    ensures ExtractTenantId(path) == None
  {
    assert |Literal(TENANT_PREFIX) + UuidItems()| == |TENANT_PREFIX| + UUID_LENGTH;
  }

  /**
   * For a tenant-specific operation the search returns the lower-cased identifier segment of the
   * path; for creating and listing tenants it returns nothing.
   */
  lemma ExtractionAgreesWithOperation(method_: string, path: string, i: nat)
    requires i < |OPERATIONS| && InferOperation(method_, path) == OPERATIONS[i].name
    ensures OPERATIONS[i].perTenant ==>
      && |path| >= |TENANT_PREFIX| + UUID_LENGTH
      && ExtractTenantId(path) == Some(LowerAll(path[|TENANT_PREFIX|..|TENANT_PREFIX| + UUID_LENGTH]))
    ensures !OPERATIONS[i].perTenant ==> ExtractTenantId(path) == None
  {
    var op := OPERATIONS[i];
    OperationFacts(i);
    OperationIsTheMatchingOne(method_, path, i);
    MatchSplitsKey(op, method_, path);
    if op.perTenant {
      TenantPathStartsWithId(op, path);
      assert SearchFrom(path, 0) == Some(0);
    } else {
      ShortPathHasNoId(path);
    }
  }

  /** Whatever the path, an extracted identifier is a version 4 UUID in lower case. */
  lemma ExtractedIdIsUuid(path: string)
    ensures var id := ExtractTenantId(path);
      id.Some? ==> |id.value| == UUID_LENGTH && MatchesAt(UuidItems(), false, id.value, 0)
  {
    var found := SearchFrom(path, 0);
    if found.Some? {
      var at, id := found.value, ExtractTenantId(path).value;
      var items := Literal(TENANT_PREFIX) + UuidItems();
      forall i | 0 <= i < UUID_LENGTH ensures Fits(UuidItems()[i], id[0 + i], false) {
        var k := |TENANT_PREFIX| + i;
        assert items[k] == UuidItems()[i];
        assert Fits(items[k], path[at + k], true);
        assert id[i] == Lower(path[at + k]);
      }
    }
  }

  // ---------------------------------------------------------------------------------------
  // Which requests have which name
  // ---------------------------------------------------------------------------------------

  /** A version 4 UUID in lower case. */
  predicate IsUuid4(id: string) {
    && |id| == 36
    && id[8] == id[13] == id[18] == id[23] == '-' && id[14] == '4' && id[19] in "89ab"
    && forall i :: 0 <= i < 36 && i != 8 && i != 13 && i != 18 && i != 23 ==> id[i] in "0123456789abcdef"
  }

  predicate IsPathOf(path: string, id: string, suffix: string) {
    || LowerAll(path) == "/api/v1/tenants/" + id + suffix
    || LowerAll(path) == "/api/v1/tenants/" + id + suffix + "\n"
  }

  /** Up to letter case and a newline at the end, the path of a tenant followed by `suffix`. */
  ghost predicate IsTenantPath(path: string, suffix: string) {
    exists id :: IsUuid4(id) && IsPathOf(path, id, suffix)
  }

  predicate IsLower(s: string) {
    forall i :: 0 <= i < |s| ==> Lower(s[i]) == s[i]
  }

  lemma LiteralMeans(text: string, path: string, at: nat)
    requires IsLower(text)
    ensures MatchesAt(Literal(text), true, path, at)
       <==> at + |text| <= |path| && LowerAll(path)[at..at + |text|] == text
  {
    if at + |text| <= |path| {
      var part := LowerAll(path)[at..at + |text|];
      forall i | 0 <= i < |text| ensures Fits(Literal(text)[i], path[at + i], true) <==> part[i] == text[i] {
        assert Literal(text)[i] == Lit(text[i]);
      }
    }
  }

  lemma UuidMeans(path: string, at: nat)
    requires at + 36 <= |path|
    ensures MatchesAt(UuidItems(), true, path, at) <==> IsUuid4(LowerAll(path)[at..at + 36])
  {
    var id := LowerAll(path)[at..at + 36];
    forall i | 0 <= i < 36
      ensures Fits(UuidItems()[i], path[at + i], true) <==>
        if i == 8 || i == 13 || i == 18 || i == 23 then id[i] == '-'
        else if i == 14 then id[i] == '4'
        else if i == 19 then id[i] in "89ab"
        else id[i] in "0123456789abcdef"
    {
      assert id[i] == Lower(path[at + i]);
      assert UuidItems()[i] == UuidItem(i);
    }
  }

  lemma MatchesJoined(a: seq<Item>, b: seq<Item>, ignoreCase: bool, s: string, at: nat)
    ensures MatchesAt(a + b, ignoreCase, s, at)
       <==> MatchesAt(a, ignoreCase, s, at) && MatchesAt(b, ignoreCase, s, at + |a|)
  {
    assert forall i :: 0 <= i < |a| ==> (a + b)[i] == a[i];
    if MatchesAt(a + b, ignoreCase, s, at) {
      forall i | 0 <= i < |b| ensures Fits(b[i], s[at + |a| + i], ignoreCase) {
        assert (a + b)[|a| + i] == b[i];
        assert Fits((a + b)[|a| + i], s[at + (|a| + i)], ignoreCase);
      }
    }
    if MatchesAt(a, ignoreCase, s, at) && MatchesAt(b, ignoreCase, s, at + |a|) {
      forall i | 0 <= i < |a + b| ensures Fits((a + b)[i], s[at + i], ignoreCase) {
        if i >= |a| {
          assert (a + b)[i] == b[i - |a|] && s[at + i] == s[at + |a| + (i - |a|)];
        }
      }
    }
  }

  lemma TenantItemsJoin(suffix: string)
    ensures Literal(BASE) + (Literal("/") + UuidItems() + Literal(suffix))
         == (Literal("/api/v1/tenants/") + UuidItems()) + Literal(suffix)
    ensures |Literal("/api/v1/tenants/") + UuidItems()| == 52
  {
    assert Literal("/api/v1/tenants/") == Literal(BASE) + Literal("/");
  }

  lemma AroundUuidMatches(prefix: string, suffix: string, path: string)
    requires IsLower(prefix) && IsLower(suffix)
    ensures var low, at := LowerAll(path), |prefix|;
      MatchesAt((Literal(prefix) + UuidItems()) + Literal(suffix), true, path, 0)
      <==> && |path| >= at + 36 + |suffix| && low[..at] == prefix
           && IsUuid4(low[at..at + 36]) && low[at + 36..at + 36 + |suffix|] == suffix
  {
    var at := |prefix|;
    MatchesJoined(Literal(prefix) + UuidItems(), Literal(suffix), true, path, 0);
    MatchesJoined(Literal(prefix), UuidItems(), true, path, 0);
    LiteralMeans(prefix, path, 0);
    LiteralMeans(suffix, path, at + 36);
    if |path| >= at + 36 {
      UuidMeans(path, at);
      assert LowerAll(path)[0..at] == LowerAll(path)[..at];
    }
  }

  lemma TenantItemsMatch(suffix: string, path: string)
    requires IsLower(suffix)
    ensures MatchesAt(Literal(BASE) + (Literal("/") + UuidItems() + Literal(suffix)), true, path, 0)
       <==> && |path| >= 52 + |suffix| && LowerAll(path)[..16] == "/api/v1/tenants/"
            && IsUuid4(LowerAll(path)[16..52]) && LowerAll(path)[52..52 + |suffix|] == suffix
  {
    TenantItemsJoin(suffix);
    AroundUuidMatches("/api/v1/tenants/", suffix, path);
  }

  lemma TenantPathMeans(suffix: string, path: string)
    requires IsLower(suffix)
    ensures IsTenantPath(path, suffix)
       <==> && MatchesAt(Literal(BASE) + (Literal("/") + UuidItems() + Literal(suffix)), true, path, 0)
            && AtDollar(path, 52 + |suffix|)
  {
    var low, n := LowerAll(path), 52 + |suffix|;
    TenantItemsMatch(suffix, path);
    if |path| >= n {
      assert low == low[..16] + low[16..52] + low[52..n] + low[n..];
      assert |path| == n + 1 ==> low[n..] == [Lower(path[n])];
    }
    if id :| IsUuid4(id) && IsPathOf(path, id, suffix) {
      var all := "/api/v1/tenants/" + id + suffix;
      assert low[..n] == all && (|low| > n ==> low[n] == '\n');
      assert low[..16] == all[..16] == "/api/v1/tenants/";
      assert low[16..52] == all[16..52] == id;
      assert low[52..n] == all[52..n] == suffix;
    }
  }

  lemma SameUpper(a: char, b: char)
    requires Upper(b) == b
    requires Lower(Upper(a)) == Lower(b) || Upper(a) == b
    ensures Upper(a) == b
  {
  }

  /** A pattern fits a request exactly when the verb is its verb and the path fits its path part. */
  lemma PatternMeans(op: Operation, method_: string, path: string)
    requires NoBlank(op.verb) && NoBlank(op.suffix) && UpperAll(op.verb) == op.verb
    ensures PatternMatches(op, KeyOf(method_, path))
       <==> && UpperAll(method_) == op.verb
            && MatchesAt(PathItems(op), op.ignoreCase, path, 0) && AtDollar(path, |PathItems(op)|)
  {
    var key, items := KeyOf(method_, path), Literal(op.verb) + Literal(" ");
    assert KeyItems(op) == items + PathItems(op);
    if PatternMatches(op, key) {
      MatchSplitsKey(op, method_, path);
      forall i | 0 <= i < |op.verb| ensures UpperAll(method_)[i] == op.verb[i] {
        assert KeyItems(op)[i] == Lit(op.verb[i]);
        assert Fits(KeyItems(op)[i], key[0 + i], op.ignoreCase);
        assert key[i] == UpperAll(method_)[i];
        SameUpper(method_[i], op.verb[i]);
      }
    }
    if UpperAll(method_) == op.verb && MatchesAt(PathItems(op), op.ignoreCase, path, 0) {
      forall i | 0 <= i < |KeyItems(op)| ensures Fits(KeyItems(op)[i], key[0 + i], op.ignoreCase) {
        if i <= |op.verb| {
          assert KeyItems(op)[i] == Lit(key[i]);
        } else {
          assert KeyItems(op)[i] == PathItems(op)[i - |items|] && key[i] == path[i - |items|];
          assert Fits(PathItems(op)[i - |items|], path[0 + (i - |items|)], op.ignoreCase);
        }
      }
      assert |path| > |PathItems(op)| ==> key[|KeyItems(op)|] == path[|PathItems(op)|];
    }
  }

  lemma CollectionPathMeans(path: string)
    ensures MatchesAt(Literal(BASE), false, path, 0) && AtDollar(path, |BASE|)
       <==> path == "/api/v1/tenants" || path == "/api/v1/tenants\n"
  {
    if MatchesAt(Literal(BASE), false, path, 0) {
      forall i | 0 <= i < |BASE| ensures path[i] == BASE[i] {
        assert Literal(BASE)[i] == Lit(BASE[i]);
        assert Fits(Literal(BASE)[i], path[0 + i], false);
      }
      assert path == BASE + path[|BASE|..];
    }
  }

  predicate IsCollectionPath(path: string) {
    path == "/api/v1/tenants" || path == "/api/v1/tenants\n"
  }

  lemma TenantOperation(i: nat, verb: string, suffix: string, name: string, method_: string, path: string)
    requires i < |OPERATIONS| && OPERATIONS[i] == Operation(verb, true, suffix, true, name)
    requires UpperAll(verb) == verb && IsLower(suffix)
    ensures InferOperation(method_, path) == name <==> UpperAll(method_) == verb && IsTenantPath(path, suffix)
  {
    OperationFacts(i);
    OperationIsTheMatchingOne(method_, path, i);
    PatternMeans(OPERATIONS[i], method_, path);
    TenantPathMeans(suffix, path);
  }

  lemma CollectionOperation(i: nat, verb: string, name: string, method_: string, path: string)
    requires i < |OPERATIONS| && OPERATIONS[i] == Operation(verb, false, "", false, name)
    requires UpperAll(verb) == verb
    ensures InferOperation(method_, path) == name <==> UpperAll(method_) == verb && IsCollectionPath(path)
  {
    OperationFacts(i);
    OperationIsTheMatchingOne(method_, path, i);
    PatternMeans(OPERATIONS[i], method_, path);
    CollectionPathMeans(path);
    assert Literal(BASE) + [] == Literal(BASE);
  }

  /** Which requests get which name: exactly these methods on exactly these paths. */
  lemma OperationTable(method_: string, path: string)
    ensures var name, verb := InferOperation(method_, path), UpperAll(method_);
      && (name == "list_audit_logs" <==> verb == "GET" && IsTenantPath(path, "/audit-logs"))
      && (name == "change_status" <==> verb == "POST" && IsTenantPath(path, "/status"))
      && (name == "get_tenant_detail" <==> verb == "GET" && IsTenantPath(path, ""))
      && (name == "update_tenant" <==> verb == "PATCH" && IsTenantPath(path, ""))
      && (name == "create_tenant" <==> verb == "POST" && IsCollectionPath(path))
      && (name == "list_tenants" <==> verb == "GET" && IsCollectionPath(path))
  {
    TenantOperation(0, "GET", "/audit-logs", "list_audit_logs", method_, path);
    TenantOperation(1, "POST", "/status", "change_status", method_, path);
    TenantOperation(2, "GET", "", "get_tenant_detail", method_, path);
    TenantOperation(3, "PATCH", "", "update_tenant", method_, path);
    CollectionOperation(4, "POST", "create_tenant", method_, path);
    CollectionOperation(5, "GET", "list_tenants", method_, path);
  }

  /** At `at` stands a tenant's path with this id, and the segment of the id ends there. */
  predicate StandsAt(path: string, at: nat, id: string) {
    && IsUuid4(id) && at + 52 <= |path| && LowerAll(path)[at..at + 52] == "/api/v1/tenants/" + id
    && (path[at + 52..] == "" || path[at + 52..] == "\n" || path[at + 52] == '/')
  }

  lemma TenantIdStandsAt(path: string, at: nat)
    ensures TenantIdAt(path, at) ==> StandsAt(path, at, LowerAll(path)[at + 16..at + 52])
    ensures forall id :: StandsAt(path, at, id) ==> TenantIdAt(path, at) && id == LowerAll(TenantSegment(path, at))
  {
    assert Literal(TENANT_PREFIX) == Literal("/api/v1/tenants/");
    MatchesJoined(Literal(TENANT_PREFIX), UuidItems(), true, path, at);
    LiteralMeans("/api/v1/tenants/", path, at);
    if at + 52 <= |path| {
      UuidMeans(path, at + 16);
      var low := LowerAll(path);
      assert low[at..at + 52] == low[at..at + 16] + low[at + 16..at + 52];
      forall id | StandsAt(path, at, id) ensures TenantIdAt(path, at) && id == LowerAll(TenantSegment(path, at)) {
        assert low[at..at + 16] == low[at..at + 52][..16] == "/api/v1/tenants/";
        assert low[at + 16..at + 52] == low[at..at + 52][16..] == id;
        assert LowerAll(path[at + 16..at + 52]) == low[at + 16..at + 52];
      }
    }
  }

  /** The extracted id is the one of the leftmost tenant path that stands anywhere in the text, if any. */
  lemma ExtractionFindsLeftmost(path: string, at: nat, id: string)
    requires StandsAt(path, at, id) && forall i: nat, x :: i < at ==> !StandsAt(path, i, x)
    ensures ExtractTenantId(path) == Some(id)
  {
    TenantIdStandsAt(path, at);
    var found := SearchFrom(path, 0);
    if found.Some? {
      TenantIdStandsAt(path, found.value);
    }
  }

  lemma ExtractionFindsNothing(path: string)
    requires forall i: nat, x :: !StandsAt(path, i, x)
    ensures ExtractTenantId(path) == None
  {
    var found := SearchFrom(path, 0);
    if found.Some? {
      TenantIdStandsAt(path, found.value);
    }
  }
}
