/** The NUL-separated byte strings that are hashed into finding and action IDs, and the lock key of
    a target. Facts are proved on the hashed string; SHA-256 appears elsewhere only as an injective
    function. */
module Framing {
  import opened Types

  const NUL: char := '\0'

  predicate NulFree(s: string) { NUL !in s }

  predicate AllNulFree(parts: seq<string>) { forall i :: 0 <= i < |parts| ==> NulFree(parts[i]) }

  /** The bytes a list of parts is turned into: the parts with one NUL between neighbours. */
  function Join(parts: seq<string>): string {
    if parts == [] then ""
    else if |parts| == 1 then parts[0]
    else parts[0] + [NUL] + Join(parts[1..])
  }

  lemma {:induction false} JoinSnoc(parts: seq<string>, last: string)
    requires parts != []
    ensures Join(parts + [last]) == Join(parts) + [NUL] + last
  {
    if |parts| == 1 {
      assert (parts + [last])[1..] == [last];
    } else {
      assert (parts + [last])[1..] == parts[1..] + [last];
      JoinSnoc(parts[1..], last);
    }
  }

  /** The bytes the hasher has been fed once the loop over the parts ends. */
  method Feed(parts: seq<string>) returns (written: string)
    ensures written == Join(parts)
  {
    written := "";
    for i := 0 to |parts|
      invariant written == Join(parts[..i])
    {
      if i > 0 {
        written := written + [NUL];
        JoinSnoc(parts[..i], parts[i]);
      }
      written := written + parts[i];
      assert parts[..i + 1] == parts[..i] + [parts[i]];
    }
    assert parts[..|parts|] == parts;
  }

  /** The position of the first NUL, or the length when there is none. */
  function FirstNul(s: string): nat {
    if s == "" || s[0] == NUL then 0 else 1 + FirstNul(s[1..])
  }

  lemma {:induction false} FirstNulAfterHead(a: string, x: string)
    requires NulFree(a) && (x == "" || x[0] == NUL)
    ensures FirstNul(a + x) == |a|
  {
    if a == "" {
      assert a + x == x;
    } else {
      assert (a + x)[1..] == a[1..] + x;
      FirstNulAfterHead(a[1..], x);
    }
  }

  /** A NUL-free head is delimited by the first NUL or the end of the string. */
  lemma HeadDelimited(a: string, x: string, b: string, y: string)
    requires NulFree(a) && NulFree(b)
    requires a + x == b + y
    requires x == "" || x[0] == NUL
    requires y == "" || y[0] == NUL
    ensures a == b && x == y
  {
    FirstNulAfterHead(a, x);
    FirstNulAfterHead(b, y);
    assert a == (a + x)[..|a|] && b == (b + y)[..|b|];
    assert x == (a + x)[|a|..] && y == (b + y)[|b|..];
  }

  /** On NUL-free parts the framing loses nothing, not even the number of parts. */
  lemma {:induction false} JoinInjective(p: seq<string>, q: seq<string>)
    requires p != [] && q != []
    requires AllNulFree(p) && AllNulFree(q)
    requires Join(p) == Join(q)
    ensures p == q
  {
    var x := if |p| == 1 then "" else [NUL] + Join(p[1..]);
    var y := if |q| == 1 then "" else [NUL] + Join(q[1..]);
    assert Join(p) == p[0] + x && Join(q) == q[0] + y;
    HeadDelimited(p[0], x, q[0], y);
    if |p| > 1 && |q| > 1 {
      assert Join(p[1..]) == x[1..] && Join(q[1..]) == y[1..];
      JoinInjective(p[1..], q[1..]);
      assert p == [p[0]] + p[1..] && q == [q[0]] + q[1..];
    } else {
      assert p == [p[0]] && q == [q[0]];
    }
  }

  /** A NUL-free first part is told by the bytes, whatever the others are. */
  lemma FirstPartSame(p: seq<string>, q: seq<string>)
    requires |p| > 1 && |q| > 1 && NulFree(p[0]) && NulFree(q[0]) && Join(p) == Join(q)
    ensures p[0] == q[0]
  {
    var x, y := [NUL] + Join(p[1..]), [NUL] + Join(q[1..]);
    assert Join(p) == p[0] + x && Join(q) == q[0] + y;
    HeadDelimited(p[0], x, q[0], y);
  }

  // ---- Rendered numbers and booleans ----

  function Digit(d: nat): char
    requires d < 10
  {
    "0123456789"[d]
  }

  function Digits(n: nat): (s: string)
    ensures s != "" && NulFree(s) && '-' !in s
  {
    if n < 10 then [Digit(n)] else Digits(n / 10) + [Digit(n % 10)]
  }

  /** `%d` and `strconv.FormatInt(n, 10)`. */
  function Decimal(n: int): (s: string)
    ensures NulFree(s)
  {
    if n < 0 then "-" + Digits(-n) else Digits(n)
  }

  lemma {:induction false} DigitsInjective(m: nat, n: nat)
    requires Digits(m) == Digits(n)
    ensures m == n
  {
    var s, t := Digits(m), Digits(n);
    assert s[|s| - 1] == Digit(m % 10) && t[|t| - 1] == Digit(n % 10);
    assert m % 10 == n % 10;
    if m >= 10 && n >= 10 {
      assert Digits(m / 10) == s[..|s| - 1] && Digits(n / 10) == t[..|t| - 1];
      DigitsInjective(m / 10, n / 10);
    } else {
      assert m < 10 ==> |s| == 1;
      assert n < 10 ==> |t| == 1;
    }
  }

  lemma DecimalSign(n: int)
    ensures Decimal(n) != "" && (Decimal(n)[0] == '-' <==> n < 0)
  {
    if n >= 0 { assert Digits(n)[0] in Digits(n); }
  }

  lemma DecimalInjective(m: int, n: int)
    requires Decimal(m) == Decimal(n)
    ensures m == n
  {
    DecimalSign(m);
    DecimalSign(n);
    if m < 0 {
      assert Digits(-m) == Decimal(m)[1..] && Digits(-n) == Decimal(n)[1..];
      DigitsInjective(-m, -n);
    } else {
      DigitsInjective(m, n);
    }
  }

  /** `%t`. */
  function Boolean(b: bool): string { if b then "true" else "false" }

  // ---- Target keys ----

  function TargetKey(t: TargetRef): string { Join([t.group, t.resource, t.ns, t.name, t.uid]) }

  predicate SameTargetIdentity(l: TargetRef, r: TargetRef) {
    l.uid == r.uid && l.group == r.group && l.resource == r.resource && l.ns == r.ns && l.name == r.name
  }

  predicate NulFreeIdentity(t: TargetRef) {
    NulFree(t.group) && NulFree(t.resource) && NulFree(t.ns) && NulFree(t.name) && NulFree(t.uid)
  }

  /** Two targets contend for one lock exactly when they are the same object. */
  lemma TargetKeyIsIdentity(l: TargetRef, r: TargetRef)
    requires NulFreeIdentity(l) && NulFreeIdentity(r)
    ensures TargetKey(l) == TargetKey(r) <==> SameTargetIdentity(l, r)
  {
    if TargetKey(l) == TargetKey(r) {
      var p, q := [l.group, l.resource, l.ns, l.name, l.uid], [r.group, r.resource, r.ns, r.name, r.uid];
      JoinInjective(p, q);
      assert p[0] == q[0] && p[1] == q[1] && p[2] == q[2] && p[3] == q[3] && p[4] == q[4];
    }
  }

  // ---- Action IDs ----

  function ActionTypeName(t: ActionType): string {
    match t
    case RemoveResourceFinalizer => "RemoveResourceFinalizer"
    case RemoveCRDFinalizer => "RemoveCRDFinalizer"
    case ForceFinalizeNamespace => "ForceFinalizeNamespace"
    case UnsupportedAction => ""
  }

  lemma ActionTypeNames(s: ActionType, t: ActionType)
    ensures NulFree(ActionTypeName(s))
    ensures ActionTypeName(s) == ActionTypeName(t) ==> s == t
  {
    assert |"RemoveResourceFinalizer"| == 23 && |"RemoveCRDFinalizer"| == 18 && |"ForceFinalizeNamespace"| == 22;
  }

  /** What an action ID binds. */
  datatype Binding = Binding(
    typ: ActionType, uid: string, finalizer: string, rv: string, policyUid: string, generation: int)

  function ActionParts(b: Binding): seq<string> {
    [ActionTypeName(b.typ), b.uid, b.finalizer, b.rv, b.policyUid, Decimal(b.generation)]
  }

  predicate NulFreeBinding(b: Binding) {
    NulFree(b.uid) && NulFree(b.finalizer) && NulFree(b.rv) && NulFree(b.policyUid)
  }

  /** The hashed bytes of an action determine all six bound fields. */
  lemma ActionFrameDetermines(b: Binding, c: Binding)
    requires NulFreeBinding(b) && NulFreeBinding(c)
    requires Join(ActionParts(b)) == Join(ActionParts(c))
    ensures b == c
  {
    var p, q := ActionParts(b), ActionParts(c);
    ActionTypeNames(b.typ, c.typ);
    ActionTypeNames(c.typ, b.typ);
    JoinInjective(p, q);
    assert p[0] == q[0] && p[1] == q[1] && p[2] == q[2] && p[3] == q[3] && p[4] == q[4] && p[5] == q[5];
    DecimalInjective(b.generation, c.generation);
  }

  // ---- Finding IDs ----

  function FindingTypeName(t: FindingType): string {
    match t
    case BlockingFinalizer => "BlockingFinalizer"
    case RemainingResource => "RemainingResource"
    case UnavailableAPIService => "UnavailableAPIService"
    case DiscoveryFailure => "DiscoveryFailure"
    case BlockingWebhook => "BlockingWebhook"
    case MissingFinalizerController => "MissingFinalizerController"
    case DeletionGracePeriodExceeded => "DeletionGracePeriodExceeded"
    case ResourceTypeRemoved => "ResourceTypeRemoved"
    case PolicyDisallowsRemediation => "PolicyDisallowsRemediation"
    case UnknownFinding => "Unknown"
  }

  /** Length and first letter already tell the ten names apart. */
  function ParseFindingType(s: string): FindingType
    requires s != ""
  {
    match |s|
    case 17 => if s[0] == 'B' then BlockingFinalizer else RemainingResource
    case 21 => UnavailableAPIService
    case 16 => DiscoveryFailure
    case 15 => BlockingWebhook
    case 26 => if s[0] == 'M' then MissingFinalizerController else PolicyDisallowsRemediation
    case 27 => DeletionGracePeriodExceeded
    case 19 => ResourceTypeRemoved
    case _ => UnknownFinding
  }

  lemma FindingTypeRoundTrip(t: FindingType)
    ensures FindingTypeName(t) != "" && ParseFindingType(FindingTypeName(t)) == t
  {
  }

  lemma FindingTypeNulFree(t: FindingType)
    ensures NulFree(FindingTypeName(t))
  {
    match t
    case BlockingFinalizer => assert NUL !in "BlockingFinalizer";
    case RemainingResource => assert NUL !in "RemainingResource";
    case UnavailableAPIService => assert NUL !in "UnavailableAPIService";
    case DiscoveryFailure => assert NUL !in "DiscoveryFailure";
    case BlockingWebhook => assert NUL !in "BlockingWebhook";
    case MissingFinalizerController => assert NUL !in "MissingFinalizerController";
    case DeletionGracePeriodExceeded => assert NUL !in "DeletionGracePeriodExceeded";
    case ResourceTypeRemoved => assert NUL !in "ResourceTypeRemoved";
    case PolicyDisallowsRemediation => assert NUL !in "PolicyDisallowsRemediation";
    case UnknownFinding => assert NUL !in "Unknown";
  }

  function ResourceParts(r: Option<TargetRef>): seq<string> {
    match r
    case None => []
    case Some(t) => [t.group, t.version, t.resource, t.ns, t.name, t.uid]
  }

  function ControllerParts(c: Option<ControllerRef>): seq<string> {
    match c
    case None => []
    case Some(r) => [r.apiVersion, r.kind, r.ns, r.name]
  }

  function CountParts(c: Option<int>): seq<string> {
    match c
    case None => []
    case Some(n) => [Decimal(n)]
  }

  function HeadParts(f: Finding): seq<string> {
    [FindingTypeName(f.typ), f.message, f.finalizer, f.apiService, f.webhook]
  }

  function FindingParts(f: Finding): seq<string> {
    HeadParts(f) + ResourceParts(f.resourceRef) + ControllerParts(f.controllerRef)
      + CountParts(f.count) + [Boolean(f.truncated)]
  }

  predicate NulFreeFinding(f: Finding) {
    && NulFree(f.message) && NulFree(f.finalizer) && NulFree(f.apiService) && NulFree(f.webhook)
    && AllNulFree(ResourceParts(f.resourceRef)) && AllNulFree(ControllerParts(f.controllerRef))
  }

  /** A finding without its own ID and without the resource's Kind, neither of which is hashed. */
  function Hashed(f: Finding): Finding {
    f.(id := "",
       resourceRef := if f.resourceRef.Some? then Some(f.resourceRef.value.(kind := "")) else None)
  }

  /** The number of parts alone tells which optional parts are there. */
  lemma PartCountTellsShape(f: Finding, g: Finding)
    requires |FindingParts(f)| == |FindingParts(g)|
    ensures f.resourceRef.Some? == g.resourceRef.Some?
    ensures f.controllerRef.Some? == g.controllerRef.Some?
    ensures f.count.Some? == g.count.Some?
  {
  }

  lemma FindingPartsNulFree(f: Finding)
    requires NulFreeFinding(f)
    ensures AllNulFree(FindingParts(f))
  {
    FindingTypeNulFree(f.typ);
    assert AllNulFree(HeadParts(f));
    assert AllNulFree(CountParts(f.count));
    assert NulFree(Boolean(f.truncated));
  }

  lemma ConcatCancels(a: seq<string>, b: seq<string>, c: seq<string>, d: seq<string>)
    requires a + b == c + d && |a| == |c|
    ensures a == c && b == d
  {
    assert a == (a + b)[..|a|] && c == (c + d)[..|c|];
    assert b == (a + b)[|a|..] && d == (c + d)[|c|..];
  }

  /** Equal part lists belong to findings that agree on every hashed field. */
  lemma PartsDetermine(f: Finding, g: Finding)
    requires FindingParts(f) == FindingParts(g)
    ensures Hashed(f) == Hashed(g)
  {
    PartCountTellsShape(f, g);
    var hf, hg := HeadParts(f), HeadParts(g);
    var rf, rg := ResourceParts(f.resourceRef), ResourceParts(g.resourceRef);
    var cf, cg := ControllerParts(f.controllerRef), ControllerParts(g.controllerRef);
    var nf, ng := CountParts(f.count), CountParts(g.count);
    var tf, tg := [Boolean(f.truncated)], [Boolean(g.truncated)];
    ConcatCancels(hf + rf + cf + nf, tf, hg + rg + cg + ng, tg);
    ConcatCancels(hf + rf + cf, nf, hg + rg + cg, ng);
    ConcatCancels(hf + rf, cf, hg + rg, cg);
    ConcatCancels(hf, rf, hg, rg);
    HeadDetermines(f, g);
    ResourceDetermines(f.resourceRef, g.resourceRef);
    ControllerDetermines(f.controllerRef, g.controllerRef);
    if f.count.Some? {
      assert nf[0] == ng[0];
      DecimalInjective(f.count.value, g.count.value);
    }
    assert tf[0] == tg[0] && |"true"| != |"false"|;
  }

  lemma HeadDetermines(f: Finding, g: Finding)
    requires HeadParts(f) == HeadParts(g)
    ensures f.typ == g.typ && f.message == g.message && f.finalizer == g.finalizer
    ensures f.apiService == g.apiService && f.webhook == g.webhook
  {
    var p, q := HeadParts(f), HeadParts(g);
    assert p[0] == q[0] && p[1] == q[1] && p[2] == q[2] && p[3] == q[3] && p[4] == q[4];
    FindingTypeRoundTrip(f.typ);
    FindingTypeRoundTrip(g.typ);
  }

  lemma ResourceDetermines(r: Option<TargetRef>, s: Option<TargetRef>)
    requires r.Some? == s.Some? && ResourceParts(r) == ResourceParts(s)
    ensures r.Some? ==> r.value.(kind := "") == s.value.(kind := "")
  {
    if r.Some? {
      var p, q := ResourceParts(r), ResourceParts(s);
      assert p[0] == q[0] && p[1] == q[1] && p[2] == q[2] && p[3] == q[3] && p[4] == q[4] && p[5] == q[5];
    }
  }

  lemma ControllerDetermines(r: Option<ControllerRef>, s: Option<ControllerRef>)
    requires r.Some? == s.Some? && ControllerParts(r) == ControllerParts(s)
    ensures r == s
  {
    if r.Some? {
      var p, q := ControllerParts(r), ControllerParts(s);
      assert p[0] == q[0] && p[1] == q[1] && p[2] == q[2] && p[3] == q[3];
    }
  }

  /** The hashed bytes of a NUL-free finding determine every field except its ID and the Kind of
      its resource, and nothing else: two findings share their bytes exactly when they agree. */
  lemma FindingFrameDetermines(f: Finding, g: Finding)
    requires NulFreeFinding(f) && NulFreeFinding(g)
    ensures Join(FindingParts(f)) == Join(FindingParts(g)) <==> Hashed(f) == Hashed(g)
  {
    if Join(FindingParts(f)) == Join(FindingParts(g)) {
      FindingPartsNulFree(f);
      FindingPartsNulFree(g);
      JoinInjective(FindingParts(f), FindingParts(g));
      PartsDetermine(f, g);
    }
    if Hashed(f) == Hashed(g) {
      SameFieldsSameParts(f, g);
    }
  }

  lemma SameFieldsSameParts(f: Finding, g: Finding)
    requires Hashed(f) == Hashed(g)
    ensures FindingParts(f) == FindingParts(g)
  {
    assert Hashed(f).resourceRef == Hashed(g).resourceRef;
    assert ResourceParts(f.resourceRef) == ResourceParts(Hashed(f).resourceRef);
    assert ResourceParts(g.resourceRef) == ResourceParts(Hashed(g).resourceRef);
    assert HeadParts(f) == HeadParts(Hashed(f));
    assert HeadParts(g) == HeadParts(Hashed(g));
  }
}
