/** Command descriptors: shape, canonical form and the executor's policy. */
module CommandDescriptors {
  import opened Wrappers
  import opened Collections
  import opened TextFacts

  /** A candidate descriptor; an absent or ill-typed string is "", an absent list is `None`. */
  datatype Descriptor = Descriptor(
    commandId: string, semanticId: string, source: string,
    argv: Option<seq<string>>, targetPaths: Option<seq<string>>,
    network: string, requiresShell: Option<bool>,
    policyStatus: string, shapeReasons: seq<string>)

  const SHAPE_INVALID := "shape_invalid"

  predicate NonEmptyStrings(list: Option<seq<string>>) {
    list.Some? && list.value != [] && forall a | a in list.value :: a != ""
  }

  predicate ShapeOk(d: Descriptor) {
    && d.commandId != "" && d.semanticId != "" && d.source != ""
    && NonEmptyStrings(d.argv) && NonEmptyStrings(d.targetPaths)
  }

  function EmptyFields(fields: seq<(string, string)>): (reasons: seq<string>)
    ensures reasons == [] <==> forall i | 0 <= i < |fields| :: fields[i].1 != ""
  {
    if fields == [] then []
    else OneIf(fields[0].1 == "", fields[0].0 + " must be a non-empty string") + EmptyFields(fields[1..])
  }

  function RequiredFields(d: Descriptor): seq<(string, string)> {
    [("command_id", d.commandId), ("semantic_id", d.semanticId), ("source", d.source)]
  }

  function ShapeReasons(d: Descriptor): (reasons: seq<string>)
    ensures reasons == [] <==> ShapeOk(d)
  {
    var fields := RequiredFields(d);
    assert fields[0].1 == d.commandId && fields[1].1 == d.semanticId && fields[2].1 == d.source;
    EmptyFields(fields)
    + OneIf(!NonEmptyStrings(d.argv), "argv must be a non-empty string array")
    + OneIf(!NonEmptyStrings(d.targetPaths), "target_paths must be a non-empty string array")
  }

  method PushEmptyFields(fields: seq<(string, string)>) returns (reasons: seq<string>)
    ensures reasons == EmptyFields(fields)
  {
    reasons := [];
    for i := 0 to |fields|
      invariant reasons + EmptyFields(fields[i..]) == EmptyFields(fields)
    {
      var reason := fields[i].0 + " must be a non-empty string";
      Regroup(reasons, OneIf(fields[i].1 == "", reason), EmptyFields(fields[i + 1..]));
      assert fields[i..][0] == fields[i] && fields[i..][1..] == fields[i + 1..];
      reasons := PushIf(reasons, fields[i].1 == "", reason);
    }
    assert fields[|fields|..] == [];
  }

  /** The shape check, the same in the planner and in the executor. */
  method ValidateDescriptorShape(d: Descriptor) returns (reasons: seq<string>)
    ensures reasons == ShapeReasons(d) && (reasons == [] <==> ShapeOk(d))
  {
    reasons := PushEmptyFields(RequiredFields(d));
    reasons := PushIf(reasons, !NonEmptyStrings(d.argv), "argv must be a non-empty string array");
    reasons := PushIf(reasons, !NonEmptyStrings(d.targetPaths), "target_paths must be a non-empty string array");
  }

  function OrEmptyList(list: Option<seq<string>>): Option<seq<string>> {
    if list.Some? then list else Some([])
  }

  /** The deterministic form: a shape-invalid descriptor keeps its identity and reasons only. */
  function Canonical(d: Descriptor): Descriptor {
    if d.policyStatus == SHAPE_INVALID then
      Descriptor(d.commandId, d.semanticId, d.source, None, None, "", None, SHAPE_INVALID, d.shapeReasons)
    else
      d.(argv := OrEmptyList(d.argv), targetPaths := OrEmptyList(d.targetPaths), shapeReasons := [])
  }

  type Descriptors = map<string, Descriptor>

  /** The id a raw entry is filed under. */
  function FiledUnder(raw: Descriptors, key: string): string
    requires key in raw
  {
    if raw[key].commandId != "" then raw[key].commandId else key
  }

  /** Two entries claim one id with different content. */
  ghost predicate Conflict(raw: Descriptors) {
    exists k, l :: k in raw && l in raw && FiledUnder(raw, k) == FiledUnder(raw, l)
      && Canonical(raw[k]) != Canonical(raw[l])
  }

  /** Canonicalization files every descriptor, and throws (`None`) exactly on a conflict. */
  method CanonicalizePlan(raw: Descriptors) returns (r: Option<Descriptors>)
    ensures r.None? <==> Conflict(raw)
    ensures r.Some? ==> forall k | k in raw ::
            FiledUnder(raw, k) in r.value && r.value[FiledUnder(raw, k)] == Canonical(raw[k])
    ensures r.Some? ==> forall id | id in r.value :: exists k :: k in raw && FiledUnder(raw, k) == id
  {
    var filed: Descriptors := map[];
    var todo := raw.Keys;
    while todo != {}
      invariant todo <= raw.Keys
      invariant forall k | k in raw && k !in todo ::
                FiledUnder(raw, k) in filed && filed[FiledUnder(raw, k)] == Canonical(raw[k])
      invariant forall id | id in filed :: exists k :: k in raw && k !in todo && FiledUnder(raw, k) == id
      decreases |todo|
    {
      var key :| key in todo;
      todo := todo - {key};
      var id := FiledUnder(raw, key);
      if id in filed {
        if filed[id] != Canonical(raw[key]) {
          return None;
        }
      } else {
        filed := filed[id := Canonical(raw[key])];
      }
    }
    return Some(filed);
  }

  // ---- The executor's policy gate ----

  const MAX_ARGV_LENGTH := 64

  predicate IsShellMeta(c: char) {
    c in ";&|`$(){}<>\n\r\t\\"
  }

  predicate HasShellMeta(a: string) {
    exists k :: 0 <= k < |a| && IsShellMeta(a[k])
  }

  predicate HasGlob(p: string) { '*' in p || '?' in p }

  predicate HasTraversal(p: string) {
    exists k :: 0 <= k < |p| - 1 && p[k] == '.' && p[k + 1] == '.'
  }

  predicate ExplicitRelativeFile(p: string) {
    p != "" && p != "." && p != ".." && p[0] != '/' && !HasGlob(p) && !HasTraversal(p)
  }

  const ALLOWED_BINARIES := {"npx", "node", "tsc"}

  /** A descriptor the executor agrees to run. */
  predicate PolicyAccepts(d: Descriptor) {
    && ShapeOk(d) && d.requiresShell == Some(false) && d.network == "disabled"
    && |d.argv.value| <= MAX_ARGV_LENGTH
    && d.argv.value[0] in ALLOWED_BINARIES
    && (forall a | a in d.argv.value :: !HasShellMeta(a))
    && (d.argv.value[0] == "npx" ==> |d.argv.value| > 1 && d.argv.value[1] == "--no-install")
    && forall p | p in d.targetPaths.value :: ExplicitRelativeFile(p)
  }

  datatype PolicyReason =
    | ShapeInvalid(reason: string)
    | ShellRequired | NetworkEnabled | ArgvTooLong | BinaryNotAllowed(binary: string)
    | ShellMetacharacters(arg: string) | InstallAllowed
    | NotAFile(path: string) | GlobCharacters(path: string) | AbsolutePath(path: string) | Traversal(path: string)

  predicate PathReason(paths: seq<string>, r: PolicyReason) {
    match r
    case NotAFile(p) => p in paths && (p == "." || p == "..")
    case GlobCharacters(p) => p in paths && HasGlob(p)
    case AbsolutePath(p) => p in paths && p != "" && p[0] == '/'
    case Traversal(p) => p in paths && HasTraversal(p)
    case _ => false
  }

  /** The rule a reason names is broken; of several arguments with metacharacters the first is named. */
  predicate Broken(d: Descriptor, r: PolicyReason)
    requires ShapeOk(d)
  {
    var argv, paths := d.argv.value, d.targetPaths.value;
    match r
    case ShellRequired => d.requiresShell != Some(false)
    case NetworkEnabled => d.network != "disabled"
    case ArgvTooLong => |argv| > MAX_ARGV_LENGTH
    case BinaryNotAllowed(b) => b == argv[0] && b !in ALLOWED_BINARIES
    case ShellMetacharacters(a) =>
      exists i :: 0 <= i < |argv| && argv[i] == a && HasShellMeta(a) && forall k | 0 <= k < i :: !HasShellMeta(argv[k])
    case InstallAllowed => argv[0] == "npx" && !(|argv| > 1 && argv[1] == "--no-install")
    case _ => PathReason(paths, r)
  }

  /** The first argument with a metacharacter ends the search. */
  function MetaReasons(argv: seq<string>): seq<PolicyReason> {
    if argv == [] then []
    else if HasShellMeta(argv[0]) then [ShellMetacharacters(argv[0])]
    else MetaReasons(argv[1..])
  }

  function OnePathReasons(p: string): seq<PolicyReason> {
    OneIf(p == "." || p == "..", NotAFile(p)) + OneIf(HasGlob(p), GlobCharacters(p))
    + OneIf(p != "" && p[0] == '/', AbsolutePath(p)) + OneIf(HasTraversal(p), Traversal(p))
  }

  function PathReasons(paths: seq<string>): seq<PolicyReason> {
    if paths == [] then [] else PathReasons(paths[..|paths| - 1]) + OnePathReasons(paths[|paths| - 1])
  }

  function GeneralReasons(d: Descriptor): seq<PolicyReason>
    requires ShapeOk(d)
  {
    var argv := d.argv.value;
    OneIf(d.requiresShell != Some(false), ShellRequired) + OneIf(d.network != "disabled", NetworkEnabled)
    + OneIf(|argv| > MAX_ARGV_LENGTH, ArgvTooLong) + OneIf(argv[0] !in ALLOWED_BINARIES, BinaryNotAllowed(argv[0]))
  }

  /** The reasons in the order the rules are checked; a path breaking several rules is named for each. */
  function PolicyReasons(d: Descriptor): seq<PolicyReason>
    requires ShapeOk(d)
  {
    var argv := d.argv.value;
    GeneralReasons(d) + MetaReasons(argv)
      + OneIf(argv[0] == "npx" && !(|argv| > 1 && argv[1] == "--no-install"), InstallAllowed)
    + PathReasons(d.targetPaths.value)
  }

  function AsShapeInvalid(reasons: seq<string>): seq<PolicyReason> {
    if reasons == [] then [] else [ShapeInvalid(reasons[0])] + AsShapeInvalid(reasons[1..])
  }

  /** The executor's gate: the reasons in order, and no reason exactly for an accepted descriptor. */
  method EnforceDescriptorPolicy(d: Descriptor) returns (reasons: seq<PolicyReason>)
    ensures reasons == if ShapeOk(d) then PolicyReasons(d) else AsShapeInvalid(ShapeReasons(d))
    ensures reasons == [] <==> PolicyAccepts(d)
  {
    var shape := ValidateDescriptorShape(d);
    if shape != [] {
      return AsShapeInvalid(shape);
    }
    PolicyReasonsExact(d);
    var argv := d.argv.value;
    reasons := PushIf([], d.requiresShell != Some(false), ShellRequired);
    assert reasons == OneIf(d.requiresShell != Some(false), ShellRequired);
    reasons := PushIf(reasons, d.network != "disabled", NetworkEnabled);
    reasons := PushIf(reasons, |argv| > MAX_ARGV_LENGTH, ArgvTooLong);
    reasons := PushIf(reasons, argv[0] !in ALLOWED_BINARIES, BinaryNotAllowed(argv[0]));
    var meta := FindMeta(argv);
    reasons := reasons + meta;
    reasons := PushIf(reasons, argv[0] == "npx" && !(|argv| > 1 && argv[1] == "--no-install"), InstallAllowed);
    var paths := CheckPaths(d.targetPaths.value);
    reasons := reasons + paths;
  }

  method FindMeta(argv: seq<string>) returns (reasons: seq<PolicyReason>)
    ensures reasons == MetaReasons(argv)
  {
    for i := 0 to |argv|
      invariant MetaReasons(argv) == MetaReasons(argv[i..])
    {
      if HasShellMeta(argv[i]) {
        return [ShellMetacharacters(argv[i])];
      }
    }
    return [];
  }

  method CheckPaths(paths: seq<string>) returns (reasons: seq<PolicyReason>)
    ensures reasons == PathReasons(paths)
  {
    reasons := [];
    for i := 0 to |paths|
      invariant reasons == PathReasons(paths[..i])
    {
      var more := CheckPath(paths[i]);
      assert paths[..i + 1][..i] == paths[..i];
      reasons := reasons + more;
    }
    assert paths[..|paths|] == paths;
  }

  method CheckPath(p: string) returns (reasons: seq<PolicyReason>)
    ensures reasons == OnePathReasons(p)
  {
    reasons := PushIf([], p == "." || p == "..", NotAFile(p));
    assert reasons == OneIf(p == "." || p == "..", NotAFile(p));
    reasons := PushIf(reasons, HasGlob(p), GlobCharacters(p));
    reasons := PushIf(reasons, p != "" && p[0] == '/', AbsolutePath(p));
    reasons := PushIf(reasons, HasTraversal(p), Traversal(p));
  }

  lemma {:induction false} MetaReasonsExact(argv: seq<string>, r: PolicyReason)
    ensures r in MetaReasons(argv) <==>
            r.ShellMetacharacters?
            && exists i :: 0 <= i < |argv| && argv[i] == r.arg && HasShellMeta(r.arg)
                           && forall k | 0 <= k < i :: !HasShellMeta(argv[k])
  {
    if argv != [] && !HasShellMeta(argv[0]) {
      MetaReasonsExact(argv[1..], r);
      if i :| 0 <= i < |argv| && r.ShellMetacharacters? && argv[i] == r.arg && HasShellMeta(r.arg)
              && forall k | 0 <= k < i :: !HasShellMeta(argv[k]) {
        assert argv[1..][i - 1] == r.arg && forall k | 0 <= k < i - 1 :: argv[1..][k] == argv[k + 1];
      }
      if i :| 0 <= i < |argv[1..]| && r.ShellMetacharacters? && argv[1..][i] == r.arg && HasShellMeta(r.arg)
              && forall k | 0 <= k < i :: !HasShellMeta(argv[1..][k]) {
        assert argv[i + 1] == r.arg && forall k | 0 < k < i + 1 :: argv[k] == argv[1..][k - 1];
      }
    }
  }

  lemma {:induction false} OnePathExact(p: string, r: PolicyReason)
    ensures r in OnePathReasons(p) <==> PathReason([p], r)
  {
  }

  lemma {:induction false} PathReasonsExact(paths: seq<string>, r: PolicyReason)
    ensures r in PathReasons(paths) <==> PathReason(paths, r)
  {
    if paths != [] {
      var n := |paths| - 1;
      PathReasonsExact(paths[..n], r);
      assert paths == paths[..n] + [paths[n]];
      OnePathExact(paths[n], r);
    }
  }

  predicate IsGeneral(r: PolicyReason) {
    r.ShellRequired? || r.NetworkEnabled? || r.ArgvTooLong? || r.BinaryNotAllowed?
  }

  lemma {:induction false} GeneralReasonsExact(d: Descriptor, r: PolicyReason)
    requires ShapeOk(d)
    ensures r in GeneralReasons(d) <==> IsGeneral(r) && Broken(d, r)
  {
  }

  lemma {:induction false} ReasonExact(d: Descriptor, r: PolicyReason)
    requires ShapeOk(d)
    ensures r in PolicyReasons(d) <==> Broken(d, r)
  {
    GeneralReasonsExact(d, r);
    MetaReasonsExact(d.argv.value, r);
    PathReasonsExact(d.targetPaths.value, r);
  }

  /** Every broken rule is reported and nothing else, and silence is acceptance. */
  lemma {:induction false} PolicyReasonsExact(d: Descriptor)
    requires ShapeOk(d)
    ensures forall r :: r in PolicyReasons(d) <==> Broken(d, r)
    ensures PolicyReasons(d) == [] <==> PolicyAccepts(d)
  {
    forall r ensures r in PolicyReasons(d) <==> Broken(d, r) {
      ReasonExact(d, r);
    }
    AcceptedUnbroken(d, PolicyReasons(d));
  }

  lemma {:induction false} AcceptedUnbroken(d: Descriptor, reasons: seq<PolicyReason>)
    requires ShapeOk(d) && forall r :: r in reasons <==> Broken(d, r)
    ensures reasons == [] <==> PolicyAccepts(d)
  {
    var argv, paths := d.argv.value, d.targetPaths.value;
    if reasons == [] {
      assert !Broken(d, ShellRequired) && !Broken(d, NetworkEnabled) && !Broken(d, ArgvTooLong);
      assert !Broken(d, BinaryNotAllowed(argv[0])) && !Broken(d, InstallAllowed);
      NoMeta(d, |argv|);
      forall p | p in paths ensures ExplicitRelativeFile(p) {
        assert !Broken(d, NotAFile(p)) && !Broken(d, GlobCharacters(p)) && !Broken(d, AbsolutePath(p))
               && !Broken(d, Traversal(p));
      }
    } else {
      assert Broken(d, reasons[0]);
    }
  }

  lemma {:induction false} NoMeta(d: Descriptor, n: nat)
    requires ShapeOk(d) && n <= |d.argv.value| && forall a :: !Broken(d, ShellMetacharacters(a))
    ensures forall k | 0 <= k < n :: !HasShellMeta(d.argv.value[k])
  {
    if n > 0 {
      NoMeta(d, n - 1);
      assert !Broken(d, ShellMetacharacters(d.argv.value[n - 1]));
    }
  }

  // ---- What an accepted descriptor looks like ----

  /** The whole policy, rule by rule on characters and words. */
  lemma {:induction false} AcceptedExactly(d: Descriptor)
    ensures PolicyAccepts(d) <==>
            && d.commandId != "" && d.semanticId != "" && d.source != ""
            && d.requiresShell == Some(false) && d.network == "disabled"
            && d.argv.Some? && 0 < |d.argv.value| <= 64
            && (d.argv.value[0] == "npx" || d.argv.value[0] == "node" || d.argv.value[0] == "tsc")
            && (d.argv.value[0] == "npx" ==> |d.argv.value| > 1 && d.argv.value[1] == "--no-install")
            && (forall a | a in d.argv.value :: a != "" && forall c | c in a :: c !in ";&|`$(){}<>\n\r\t\\")
            && d.targetPaths.Some? && d.targetPaths.value != []
            && forall p | p in d.targetPaths.value ::
                 && p != "" && p != "." && p[0] != '/' && '*' !in p && '?' !in p
                 && forall k | 0 <= k < |p| - 1 :: !(p[k] == '.' && p[k + 1] == '.')
  {
    if d.argv.Some? {
      forall a | a in d.argv.value ensures !HasShellMeta(a) <==> forall c | c in a :: c !in ";&|`$(){}<>\n\r\t\\" {
        MetaExactly(a);
      }
    }
    if d.targetPaths.Some? {
      forall p | p in d.targetPaths.value ensures p == ".." ==> HasTraversal(p) {
        if p == ".." { assert p[0] == '.' && p[0 + 1] == '.'; }
      }
    }
  }

  lemma {:induction false} MetaExactly(a: string)
    ensures !HasShellMeta(a) <==> forall c | c in a :: c !in ";&|`$(){}<>\n\r\t\\"
  {
    forall k | 0 <= k < |a| ensures a[k] in a {}
  }

  lemma {:induction false} SegmentInside(p: string, segment: string) returns (i: nat)
    requires segment in SplitOn(p, '/')
    ensures i + |segment| <= |p| && p[i..i + |segment|] == segment
  {
    i := 0;
    if p != "" {
      var rest := SplitOn(p[1..], '/');
      if segment in rest {
        i := SegmentInside(p[1..], segment);
        assert p[i + 1..i + 1 + |segment|] == p[1..][i..i + |segment|];
        i := i + 1;
      } else if p[0] != '/' {
        FirstSegment(p[1..]);
        assert segment == [p[0]] + rest[0] && rest[0] == p[1..][..|rest[0]|];
        assert p[..1 + |rest[0]|] == [p[0]] + p[1..][..|rest[0]|];
      }
    }
  }

  lemma {:induction false} FirstSegment(p: string)
    ensures SplitOn(p, '/')[0] <= p
  {
    if p != "" { FirstSegment(p[1..]); }
  }

  /** The paths of an accepted descriptor are relative and no segment of them leads upwards. */
  lemma {:induction false} AcceptedPathsStayInside(d: Descriptor, p: string)
    requires PolicyAccepts(d) && p in d.targetPaths.value
    ensures p != "" && p[0] != '/' && ".." !in SplitOn(p, '/')
  {
    if ".." in SplitOn(p, '/') {
      var i := SegmentInside(p, "..");
      assert p[i] == p[i..i + 2][0] && p[i + 1] == p[i..i + 2][1];
      assert HasTraversal(p);
    }
  }

  /** Canonicalization is idempotent, keeps identity and verdict, and keeps what to run exactly when it can run. */
  lemma {:induction false} CanonicalKeeps(d: Descriptor)
    ensures var c := Canonical(d);
            && Canonical(c) == c
            && c.commandId == d.commandId && c.semanticId == d.semanticId && c.source == d.source
            && c.policyStatus == d.policyStatus
            && (d.policyStatus != "shape_invalid" ==>
                  && (PolicyAccepts(c) <==> PolicyAccepts(d))
                  && (d.argv.Some? ==> c.argv == d.argv) && (d.targetPaths.Some? ==> c.targetPaths == d.targetPaths))
            && (d.policyStatus == "shape_invalid" ==>
                  !PolicyAccepts(c) && c.argv.None? && c.targetPaths.None? && c.shapeReasons == d.shapeReasons)
  {
  }
}
