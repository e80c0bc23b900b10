/** The document template registry and the customer-data path resolver that fills
    template fields from a customer record. */
module DocumentTemplates {
  import opened Options
  import opened Text

  // ---------------------------------------------------------------------------
  // Customer records as the resolver sees them

  /** An untyped, JSON-like customer value. */
  datatype Value =
    | VNull
    | VBool(b: bool)
    | VInt(i: int)
    | VString(s: string)
    | VObject(fields: map<string, Value>)

  /** `value?.toString() || ""` for the value a walk ended on. */
  function Display(v: Value): string {
    match v
    case VNull => ""
    case VBool(b) => if b then "true" else "false"
    case VInt(i) => IntToString(i)
    case VString(s) => s
    case VObject(_) => "[object Object]"
  }

  /** One step of the walk is possible from `w` with key `k`: `w` is a (truthy) object
      holding `k`. */
  predicate Steps(w: Value, k: string) {
    w.VObject? && k in w.fields
  }

  /** The walk along a chain of keys; `None` is the early `return ""`. */
  function WalkPath(v: Value, keys: seq<string>): Option<Value> {
    if keys == [] then Some(v)
    else if Steps(v, keys[0]) then WalkPath(v.fields[keys[0]], keys[1..])
    else None
  }

  /** What a key chain selects from a customer, rendered. */
  function ResolveKeys(customer: Value, keys: seq<string>): string {
    match WalkPath(customer, keys)
    case None => ""
    case Some(w) => Display(w)
  }

  /** `.filter(Boolean)` on strings: the empty ones are dropped, the rest kept in order. */
  function FilterNonEmpty(xs: seq<string>): (r: seq<string>)
    ensures forall k | 0 <= k < |r| :: r[k] != ""
  {
    if xs == [] then [] else (if xs[0] == "" then [] else [xs[0]]) + FilterNonEmpty(xs[1..])
  }

  /** `.filter(Boolean).join(" ")` */
  function JoinNonEmpty(xs: seq<string>): string {
    Join(FilterNonEmpty(xs), " ")
  }

  /** getCustomerDataValue: the display string a path selects from a customer. */
  function Resolve(customer: Value, path: string): string
    decreases if ',' in path then 1 else 0, 0
  {
    if path == "" then ""
    else if ',' in path then JoinNonEmpty(ResolveParts(customer, Split(path, ',')))
    else ResolveKeys(customer, Split(path, '.'))
  }

  /** `.map(p => getCustomerDataValue(customer, p.trim()))` over comma-free parts. */
  function ResolveParts(customer: Value, parts: seq<string>): (r: seq<string>)
    requires forall k | 0 <= k < |parts| :: ',' !in parts[k]
    ensures |r| == |parts|
    decreases 0, |parts|
  {
    if parts == [] then []
    else
      TrimNoChar(parts[0], JavaScript, ',');
      [Resolve(customer, Trim(parts[0], JavaScript))] + ResolveParts(customer, parts[1..])
  }

  lemma {:induction false} ResolvePartsAt(customer: Value, parts: seq<string>, i: nat)
    requires forall k | 0 <= k < |parts| :: ',' !in parts[k]
    requires i < |parts|
    ensures ResolveParts(customer, parts)[i] == Resolve(customer, Trim(parts[i], JavaScript))
  {
    if i > 0 {
      ResolvePartsAt(customer, parts[1..], i - 1);
    }
  }

  /** The resolver: never fails, returns "" for absent data. */
  method GetCustomerDataValue(customer: Value, path: string) returns (r: string)
    ensures r == Resolve(customer, path)
    decreases if ',' in path then 1 else 0, 1
  {
    if path == "" {
      r := "";
    } else if ',' in path {
      r := ResolveCommaPath(customer, path);
    } else {
      r := LookupDotted(customer, path);
    }
  }

  /** The comma branch: each trimmed part is resolved by the resolver itself. */
  method ResolveCommaPath(customer: Value, path: string) returns (r: string)
    requires ',' in path
    ensures r == JoinNonEmpty(ResolveParts(customer, Split(path, ',')))
    decreases 1, 0
  {
    var parts := Split(path, ',');
    assert forall k | 0 <= k < |parts| :: ',' !in parts[k] by {
      forall k | 0 <= k < |parts| ensures ',' !in parts[k] { assert parts[k] in parts; }
    }
    var results: seq<string> := [];
    for i := 0 to |parts|
      invariant results == ResolveParts(customer, parts)[..i]
    {
      TrimNoChar(parts[i], JavaScript, ',');
      var v := GetCustomerDataValue(customer, Trim(parts[i], JavaScript));
      ResolvePartsNext(customer, parts, i);
      results := results + [v];
    }
    assert results == ResolveParts(customer, parts);
    r := JoinNonEmpty(results);
  }

  lemma ResolvePartsNext(customer: Value, parts: seq<string>, i: nat)
    requires forall k | 0 <= k < |parts| :: ',' !in parts[k]
    requires i < |parts|
    ensures ResolveParts(customer, parts)[..i + 1]
         == ResolveParts(customer, parts)[..i] + [Resolve(customer, Trim(parts[i], JavaScript))]
  {
    ResolvePartsAt(customer, parts, i);
    TakeOneMore(ResolveParts(customer, parts), i);
  }

  lemma TakeOneMore(xs: seq<string>, i: nat)
    requires i < |xs|
    ensures xs[..i + 1] == xs[..i] + [xs[i]]
  {
  }

  /** The dotted branch: follow the keys while the current value is an object holding
      the next one. */
  method LookupDotted(customer: Value, path: string) returns (r: string)
    ensures r == ResolveKeys(customer, Split(path, '.'))
  {
    var keys := Split(path, '.');
    var value := customer;
    for i := 0 to |keys|
      invariant WalkPath(customer, keys) == WalkPath(value, keys[i..])
    {
      if value.VObject? && keys[i] in value.fields {
        assert keys[i..][1..] == keys[i + 1..];
        value := value.fields[keys[i]];
      } else {
        return "";
      }
    }
    return Display(value);
  }

  // ---------------------------------------------------------------------------
  // Properties of the resolver

  /** An empty path resolves to "". */
  lemma ResolveEmptyPath(customer: Value)
    ensures Resolve(customer, "") == ""
  {
  }

  /** The sub-paths of a comma path contain no comma once trimmed, so the resolver
      recurses at most one level deep. */
  lemma CommaPartsAreSingle(path: string)
    ensures forall k | 0 <= k < |Split(path, ',')| :: ',' !in Trim(Split(path, ',')[k], JavaScript)
  {
    var parts := Split(path, ',');
    forall k | 0 <= k < |parts| ensures ',' !in Trim(parts[k], JavaScript) {
      TrimNoChar(parts[k], JavaScript, ',');
    }
  }

  /** The walk fails exactly when some prefix of the keys reaches a value that is not
      an object holding the next key. */
  lemma {:induction false} WalkPathFails(v: Value, keys: seq<string>)
    ensures WalkPath(v, keys).None? <==>
      exists j | 0 <= j < |keys| :: WalkPath(v, keys[..j]).Some? && !Steps(WalkPath(v, keys[..j]).value, keys[j])
  {
    if keys != [] {
      assert keys[..0] == [];
      if Steps(v, keys[0]) {
        var w := v.fields[keys[0]];
        var tail := keys[1..];
        WalkPathFails(w, tail);
        forall j | 1 <= j <= |keys| ensures WalkPath(v, keys[..j]) == WalkPath(w, tail[..j - 1]) {
          assert keys[..j][0] == keys[0] && keys[..j][1..] == tail[..j - 1];
        }
        if WalkPath(v, keys).None? {
          var j :| 0 <= j < |tail| && WalkPath(w, tail[..j]).Some? && !Steps(WalkPath(w, tail[..j]).value, tail[j]);
          assert WalkPath(v, keys[..j + 1]) == WalkPath(w, tail[..j]);
          assert keys[j + 1] == tail[j];
        } else {
          forall j | 0 <= j < |keys| && WalkPath(v, keys[..j]).Some? ensures Steps(WalkPath(v, keys[..j]).value, keys[j]) {
            if j > 0 {
              assert WalkPath(v, keys[..j]) == WalkPath(w, tail[..j - 1]);
              assert keys[j] == tail[j - 1];
            }
          }
        }
      }
    }
  }

  /** A single path resolves to "" as soon as one of its segments cannot be followed:
      the value reached so far is missing the key, or is not an object. */
  lemma ResolveMissingSegment(customer: Value, path: string, j: nat)
    requires path != "" && ',' !in path
    requires j < |Split(path, '.')|
    requires WalkPath(customer, Split(path, '.')[..j]).Some?
    requires !Steps(WalkPath(customer, Split(path, '.')[..j]).value, Split(path, '.')[j])
    ensures Resolve(customer, path) == ""
  {
    WalkPathFails(customer, Split(path, '.'));
  }

  /** A reached final value is rendered with its string form: null gives "", while
      the falsy scalars 0 and false still give "0" and "false". */
  lemma ResolveRendersReachedValue(customer: Value, path: string, w: Value)
    requires path != "" && ',' !in path
    requires WalkPath(customer, Split(path, '.')) == Some(w)
    ensures Resolve(customer, path) == Display(w)
    ensures w == VNull ==> Resolve(customer, path) == ""
    ensures w == VInt(0) ==> Resolve(customer, path) == "0"
    ensures w == VBool(false) ==> Resolve(customer, path) == "false"
  {
  }

  /** Two results put side by side with one space, an empty one vanishing. */
  function Glue(x: string, y: string): (r: string)
    ensures x == "" ==> r == y
    ensures y == "" ==> r == x
    ensures x != "" && y != "" ==> r == x + " " + y
  {
    if x == "" then y else if y == "" then x else x + " " + y
  }

  lemma {:induction false} JoinNonEmptyCons(x: string, xs: seq<string>)
    ensures JoinNonEmpty([x] + xs) == Glue(x, JoinNonEmpty(xs))
  {
    assert ([x] + xs)[1..] == xs;
    var f := FilterNonEmpty(xs);
    assert FilterNonEmpty([x] + xs) == (if x == "" then [] else [x]) + f;
    if x != "" && f != [] {
      var g := [x] + f;
      assert g[0] == x && g[1..] == f && |g| > 1;
      assert Join(g, " ") == x + " " + Join(f, " ");
      JoinEnds(f, " ");
    } else if x != "" {
      assert [x] + f == [x];
    } else {
      assert [] + f == f;
    }
  }

  /** A comma path `a,rest` (no comma in `a`) resolves to the trimmed first part's
      result put before the result of `rest`, with one space, empty results dropped. */
  lemma CommaPathCons(customer: Value, a: string, rest: string)
    requires ',' !in a && ',' in rest
    ensures Resolve(customer, a + "," + rest) == Glue(Resolve(customer, Trim(a, JavaScript)), Resolve(customer, rest))
  {
    SplitCons(a, ',', rest);
    var tail := Split(rest, ',');
    TrimNoChar(a, JavaScript, ',');
    assert ResolveParts(customer, [a] + tail) == [Resolve(customer, Trim(a, JavaScript))] + ResolveParts(customer, tail);
    JoinNonEmptyCons(Resolve(customer, Trim(a, JavaScript)), ResolveParts(customer, tail));
  }

  /** The last two parts of a comma path. */
  lemma CommaPathPair(customer: Value, a: string, b: string)
    requires ',' !in a && ',' !in b
    ensures Resolve(customer, a + "," + b) == Glue(Resolve(customer, Trim(a, JavaScript)), Resolve(customer, Trim(b, JavaScript)))
  {
    SplitCons(a, ',', b);
    SplitNone(b, ',');
    TrimNoChar(a, JavaScript, ',');
    TrimNoChar(b, JavaScript, ',');
    var x, y := Resolve(customer, Trim(a, JavaScript)), Resolve(customer, Trim(b, JavaScript));
    assert Split(a + "," + b, ',') == [a, b];
    assert ResolveParts(customer, [b]) == [y];
    assert ResolveParts(customer, [a, b]) == [x] + ResolveParts(customer, [b]);
    JoinNonEmptyCons(x, [y]);
    assert FilterNonEmpty([y]) == (if y == "" then [] else [y]);
  }

  // ---------------------------------------------------------------------------
  // Key-chain bindings: how the registry writes its customer-data paths

  /** A binding is a non-empty comma-separated list of dotted chains of identifier keys. */
  predicate WellFormedBinding(b: seq<seq<string>>) {
    b != [] && forall i | 0 <= i < |b| :: b[i] != [] && forall j | 0 <= j < |b[i]| :: IsIdent(b[i][j])
  }

  function Dotted(keys: seq<string>): string {
    Join(keys, ".")
  }

  function DottedAll(b: seq<seq<string>>): (r: seq<string>)
    ensures |r| == |b| && forall i | 0 <= i < |b| :: r[i] == Dotted(b[i])
  {
    if b == [] then [] else [Dotted(b[0])] + DottedAll(b[1..])
  }

  /** The path string of a binding, as the registry's `customerDataPath` spells it. */
  function PathText(b: seq<seq<string>>): string {
    Join(DottedAll(b), ",")
  }

  /** The rendered results of a binding's chains, in order. */
  function ResolveChains(customer: Value, b: seq<seq<string>>): (r: seq<string>)
    ensures |r| == |b| && forall i | 0 <= i < |b| :: r[i] == ResolveKeys(customer, b[i])
  {
    if b == [] then [] else [ResolveKeys(customer, b[0])] + ResolveChains(customer, b[1..])
  }

  lemma KeysHaveNo(keys: seq<string>, c: char)
    requires forall j | 0 <= j < |keys| :: IsIdent(keys[j])
    requires !IsIdentChar(c)
    ensures forall j | 0 <= j < |keys| :: c !in keys[j]
  {
  }

  /** A dotted chain of keys parses back to the keys and is not changed by trimming. */
  lemma DottedParses(keys: seq<string>)
    requires keys != [] && forall j | 0 <= j < |keys| :: IsIdent(keys[j])
    ensures Split(Dotted(keys), '.') == keys
    ensures Trim(Dotted(keys), JavaScript) == Dotted(keys)
    ensures ',' !in Dotted(keys) && Dotted(keys) != ""
  {
    KeysHaveNo(keys, '.');
    KeysHaveNo(keys, ',');
    JoinSplit(keys, '.');
    JoinNoChar(keys, '.', ',');
    JoinEnds(keys, ".");
    var d := Dotted(keys);
    assert IsIdentChar(keys[0][0]) && IsIdentChar(keys[|keys| - 1][|keys[|keys| - 1]| - 1]);
    TrimNoop(d, JavaScript);
  }

  /** The comma parts of a binding's path are its dotted chains. */
  lemma PathTextParts(b: seq<seq<string>>)
    requires WellFormedBinding(b)
    ensures Split(PathText(b), ',') == DottedAll(b)
    ensures forall i | 0 <= i < |b| :: ',' !in Dotted(b[i])
  {
    var ds := DottedAll(b);
    forall i | 0 <= i < |b| ensures ',' !in ds[i] {
      DottedParses(b[i]);
    }
    JoinSplit(ds, ',');
  }

  /** A join of two or more parts contains the separator. */
  lemma JoinHasSeparator(parts: seq<string>, sep: char)
    requires |parts| > 1
    ensures sep in Join(parts, [sep])
  {
    assert Join(parts, [sep])[|parts[0]|] == sep;
  }

  lemma {:induction false} ResolvePartsOfChains(customer: Value, b: seq<seq<string>>)
    requires WellFormedBinding(b)
    ensures forall i | 0 <= i < |b| :: ',' !in Dotted(b[i])
    ensures ResolveParts(customer, DottedAll(b)) == ResolveChains(customer, b)
  {
    var ds := DottedAll(b);
    forall i | 0 <= i < |b| ensures ',' !in ds[i] && Split(ds[i], '.') == b[i] && Trim(ds[i], JavaScript) == ds[i] {
      DottedParses(b[i]);
    }
    forall i | 0 <= i < |b| ensures ResolveParts(customer, ds)[i] == ResolveChains(customer, b)[i] {
      ResolvePartsAt(customer, ds, i);
      DottedParses(b[i]);
    }
  }

  /** Resolving a binding's path string is resolving its key chains and joining the
      non-empty results with single spaces; for one chain that is the chain's own result. */
  lemma PathTextResolves(customer: Value, b: seq<seq<string>>)
    requires WellFormedBinding(b)
    ensures Resolve(customer, PathText(b)) == JoinNonEmpty(ResolveChains(customer, b))
  {
    var ds := DottedAll(b);
    DottedParses(b[0]);
    if |b| == 1 {
      assert PathText(b) == ds[0];
      var x := ResolveKeys(customer, b[0]);
      assert ResolveChains(customer, b) == [x];
      assert FilterNonEmpty([x]) == (if x == "" then [] else [x]);
    } else {
      JoinHasSeparator(ds, ',');
      PathTextParts(b);
      ResolvePartsOfChains(customer, b);
    }
  }

  // ---------------------------------------------------------------------------
  // The Customer shape of lib/types.ts

  datatype Shape = Leaf | Record(fields: map<string, Member>)
  datatype Member = Member(shape: Shape, optional: bool)

  function Req(s: Shape): Member { Member(s, false) }
  function Opt(s: Shape): Member { Member(s, true) }

  const AddressShape: Shape := Record(map[
    "street" := Req(Leaf), "city" := Req(Leaf), "state" := Req(Leaf), "zipCode" := Req(Leaf)])

  const InsuranceInfoShape: Shape := Record(map[
    "policyNumber" := Opt(Leaf), "policyType" := Req(Leaf), "premium" := Req(Leaf),
    "startDate" := Opt(Leaf), "endDate" := Opt(Leaf), "status" := Req(Leaf)])

  const PreferencesShape: Shape := Record(map[
    "email" := Req(Leaf), "sms" := Req(Leaf), "phone" := Req(Leaf), "preferredTime" := Opt(Leaf)])

  const CustomerShape: Shape := Record(map[
    "id" := Req(Leaf),
    "firstName" := Req(Leaf),
    "lastName" := Req(Leaf),
    "email" := Req(Leaf),
    "phone" := Req(Leaf),
    "dateOfBirth" := Req(Leaf),
    "address" := Req(AddressShape),
    "insuranceInfo" := Req(InsuranceInfoShape),
    "communicationPreferences" := Req(PreferencesShape),
    "notes" := Opt(Leaf)
  ])

  /** The keys name a chain of fields of `shape`. */
  predicate NamesField(shape: Shape, keys: seq<string>) {
    keys == [] || (shape.Record? && keys[0] in shape.fields && NamesField(shape.fields[keys[0]].shape, keys[1..]))
  }

  /** The shape at the end of a chain of field names. */
  function PathShape(shape: Shape, keys: seq<string>): Shape
    requires NamesField(shape, keys)
  {
    if keys == [] then shape else PathShape(shape.fields[keys[0]].shape, keys[1..])
  }

  /** Every field along the chain is a required one. */
  predicate RequiredAlong(shape: Shape, keys: seq<string>)
    requires NamesField(shape, keys)
  {
    keys == [] || (!shape.fields[keys[0]].optional && RequiredAlong(shape.fields[keys[0]].shape, keys[1..]))
  }

  /** A value that has the shape: objects where records are, every required field present. */
  predicate Conforms(v: Value, shape: Shape) {
    match shape
    case Leaf => !v.VObject?
    case Record(fs) =>
      v.VObject? &&
      forall k | k in fs :: (k in v.fields ==> Conforms(v.fields[k], fs[k].shape)) && (!fs[k].optional ==> k in v.fields)
  }

  /** On a value of the shape, a chain through required fields is followed to its end
      and reaches a value of the field's shape, so it never stops early. */
  lemma {:induction false} WalkConforming(v: Value, shape: Shape, keys: seq<string>)
    requires Conforms(v, shape) && NamesField(shape, keys) && RequiredAlong(shape, keys)
    ensures WalkPath(v, keys).Some?
    ensures Conforms(WalkPath(v, keys).value, PathShape(shape, keys))
  {
    if keys != [] {
      WalkConforming(v.fields[keys[0]], shape.fields[keys[0]].shape, keys[1..]);
    }
  }

  // ---------------------------------------------------------------------------
  // The registry

  datatype DocumentKind = Policy | Claim | Quote | Renewal | Certificate
  datatype FieldKind = TextField | NumberField | DateField | SelectField | CheckboxField

  /** A template field; `binding` holds the key chains of its customer-data path. */
  datatype DocumentField = DocumentField(
    id: string,
    caption: string,
    kind: FieldKind,
    required: bool,
    placeholder: Option<string>,
    options: Option<seq<string>>,
    binding: Option<seq<seq<string>>>)
  {
    /** The field's `customerDataPath` string. */
    function CustomerDataPath(): Option<string> {
      match binding
      case None => None
      case Some(b) => Some(PathText(b))
    }
  }

  datatype DocumentTemplate = DocumentTemplate(
    id: string,
    name: string,
    kind: DocumentKind,
    description: string,
    fields: seq<DocumentField>)

  function Bound(id: string, caption: string, kind: FieldKind, b: seq<seq<string>>): DocumentField {
    DocumentField(id, caption, kind, true, None, None, Some(b))
  }

  function Entered(id: string, caption: string, kind: FieldKind, placeholder: string): DocumentField {
    DocumentField(id, caption, kind, true, Some(placeholder), None, None)
  }

  const PolicyNumberPath: seq<seq<string>> := [["insuranceInfo", "policyNumber"]]
  const NamePath: seq<seq<string>> := [["firstName"], ["lastName"]]
  const EmailPath: seq<seq<string>> := [["email"]]
  const PhonePath: seq<seq<string>> := [["phone"]]
  const AddressPath: seq<seq<string>> :=
    [["address", "street"], ["address", "city"], ["address", "state"], ["address", "zipCode"]]
  const PremiumPath: seq<seq<string>> := [["insuranceInfo", "premium"]]
  const StartDatePath: seq<seq<string>> := [["insuranceInfo", "startDate"]]
  const EndDatePath: seq<seq<string>> := [["insuranceInfo", "endDate"]]

  const AutoPolicy := DocumentTemplate(
    "auto-policy", "Auto Insurance Policy", Policy, "Standard auto insurance policy document",
    [ Bound("policyNumber", "Policy Number", TextField, PolicyNumberPath),
      Bound("customerName", "Customer Name", TextField, NamePath),
      Bound("customerEmail", "Email Address", TextField, EmailPath),
      Bound("customerPhone", "Phone Number", TextField, PhonePath),
      Bound("customerAddress", "Address", TextField, AddressPath),
      Entered("vehicleYear", "Vehicle Year", NumberField, "2024"),
      Entered("vehicleMake", "Vehicle Make", TextField, "Toyota"),
      Entered("vehicleModel", "Vehicle Model", TextField, "Camry"),
      DocumentField("coverage", "Coverage Type", SelectField, true, None,
        Some(["Liability Only", "Comprehensive", "Full Coverage"]), None),
      Bound("premium", "Annual Premium", NumberField, PremiumPath),
      Bound("startDate", "Policy Start Date", DateField, StartDatePath),
      Bound("endDate", "Policy End Date", DateField, EndDatePath) ])

  const HomePolicy := DocumentTemplate(
    "home-policy", "Home Insurance Policy", Policy, "Standard home insurance policy document",
    [ Bound("policyNumber", "Policy Number", TextField, PolicyNumberPath),
      Bound("customerName", "Customer Name", TextField, NamePath),
      Bound("customerEmail", "Email Address", TextField, EmailPath),
      Bound("propertyAddress", "Property Address", TextField, AddressPath),
      Entered("propertyValue", "Property Value", NumberField, "250000"),
      Entered("dwellingCoverage", "Dwelling Coverage", NumberField, "200000"),
      Entered("personalProperty", "Personal Property Coverage", NumberField, "100000"),
      Bound("premium", "Annual Premium", NumberField, PremiumPath),
      Bound("startDate", "Policy Start Date", DateField, StartDatePath),
      Bound("endDate", "Policy End Date", DateField, EndDatePath) ])

  const ClaimForm := DocumentTemplate(
    "claim-form", "Insurance Claim Form", Claim, "Standard insurance claim form",
    [ Entered("claimNumber", "Claim Number", TextField, "CLM-2024-001"),
      Bound("policyNumber", "Policy Number", TextField, PolicyNumberPath),
      Bound("customerName", "Customer Name", TextField, NamePath),
      DocumentField("incidentDate", "Date of Incident", DateField, true, None, None, None),
      Entered("incidentDescription", "Description of Incident", TextField, "Describe what happened..."),
      Entered("damageAmount", "Estimated Damage Amount", NumberField, "5000"),
      DocumentField("policeReport", "Police Report Filed", CheckboxField, false, None, None, None) ])

  const DocumentTemplates: seq<DocumentTemplate> := [AutoPolicy, HomePolicy, ClaimForm]

  // ---------------------------------------------------------------------------
  // Registry invariants

  /** No two fields of the template share an id. */
  predicate UniqueFieldIds(t: DocumentTemplate) {
    forall i, j | 0 <= i < j < |t.fields| :: t.fields[i].id != t.fields[j].id
  }

  /** Every select field of the template offers at least one option. */
  predicate SelectsHaveOptions(t: DocumentTemplate) {
    forall i | 0 <= i < |t.fields| && t.fields[i].kind == SelectField ::
      t.fields[i].options.Some? && |t.fields[i].options.value| > 0
  }

  /** A binding whose chains all name Customer fields. */
  predicate BindsCustomerFields(b: seq<seq<string>>) {
    BindsFields(CustomerShape, b)
  }

  /** A well-formed binding whose chains all name fields of `shape`. */
  predicate BindsFields(shape: Shape, b: seq<seq<string>>) {
    WellFormedBinding(b) && forall i | 0 <= i < |b| :: NamesField(shape, b[i])
  }

  /** Every bound field of the template names Customer fields. */
  predicate BindingsNameCustomerFields(t: DocumentTemplate) {
    forall i | 0 <= i < |t.fields| && t.fields[i].binding.Some? :: BindsCustomerFields(t.fields[i].binding.value)
  }

  predicate WellFormedTemplate(t: DocumentTemplate) {
    UniqueFieldIds(t) && SelectsHaveOptions(t) && BindingsNameCustomerFields(t)
  }

  /** A one-key chain naming a field of `shape`. */
  lemma TopBinding(shape: Shape, k: string)
    requires shape.Record? && k in shape.fields && IsIdent(k)
    ensures BindsFields(shape, [[k]])
  {
    var c := [k];
    assert c[1..] == [];
    assert NamesField(shape, c);
  }

  /** A two-key chain naming a field of the record held under `a`. */
  lemma NestedBinding(shape: Shape, a: string, k: string)
    requires shape.Record? && a in shape.fields
    requires shape.fields[a].shape.Record? && k in shape.fields[a].shape.fields
    requires IsIdent(a) && IsIdent(k)
    ensures BindsFields(shape, [[a, k]])
  {
    var c := [a, k];
    assert c[1..] == [k] && [k][1..] == [];
    assert c[0] == a && c[1] == k;
    assert NamesField(shape.fields[a].shape, [k]) by {
      assert NamesField(shape.fields[a].shape.fields[k].shape, []);
    }
  }

  lemma BindsConcat(shape: Shape, b: seq<seq<string>>, c: seq<seq<string>>)
    requires BindsFields(shape, b) && BindsFields(shape, c)
    ensures BindsFields(shape, b + c)
  {
    assert forall i | 0 <= i < |b + c| :: (b + c)[i] == if i < |b| then b[i] else c[i - |b|];
  }

  // The Customer keys the bindings use, each map literal looked into once.
  lemma CustomerTopKeys()
    ensures CustomerShape.Record?
    ensures "firstName" in CustomerShape.fields && "lastName" in CustomerShape.fields
    ensures "email" in CustomerShape.fields && "phone" in CustomerShape.fields
  {
  }

  lemma CustomerRecordKeys()
    ensures CustomerShape.Record?
    ensures "address" in CustomerShape.fields && CustomerShape.fields["address"].shape == AddressShape
    ensures "insuranceInfo" in CustomerShape.fields && CustomerShape.fields["insuranceInfo"].shape == InsuranceInfoShape
  {
  }

  lemma AddressKeys()
    ensures AddressShape.Record?
    ensures "street" in AddressShape.fields && "city" in AddressShape.fields
    ensures "state" in AddressShape.fields && "zipCode" in AddressShape.fields
  {
  }

  lemma InsuranceInfoKeys()
    ensures InsuranceInfoShape.Record?
    ensures "policyNumber" in InsuranceInfoShape.fields && "premium" in InsuranceInfoShape.fields
    ensures "startDate" in InsuranceInfoShape.fields && "endDate" in InsuranceInfoShape.fields
  {
  }

  /** `insuranceInfo.<k>` names a Customer field. */
  lemma InsuranceInfoBinding(k: string)
    requires k in InsuranceInfoShape.fields && IsIdent(k)
    ensures BindsCustomerFields([["insuranceInfo", k]])
  {
    CustomerRecordKeys();
    InsuranceInfoKeys();
    assert IsIdent("insuranceInfo");
    NestedBinding(CustomerShape, "insuranceInfo", k);
  }

  // One lemma per binding keeps each literal check small.
  lemma PolicyNumberBinding()
    ensures BindsCustomerFields(PolicyNumberPath)
  {
    InsuranceInfoKeys();
    assert IsIdent("policyNumber");
    InsuranceInfoBinding("policyNumber");
  }

  lemma NameBinding()
    ensures BindsCustomerFields(NamePath)
  {
    CustomerTopKeys();
    assert IsIdent("firstName") && IsIdent("lastName");
    TopBinding(CustomerShape, "firstName");
    TopBinding(CustomerShape, "lastName");
    BindsConcat(CustomerShape, [["firstName"]], [["lastName"]]);
    assert NamePath == [["firstName"]] + [["lastName"]];
  }

  lemma EmailBinding()
    ensures BindsCustomerFields(EmailPath)
  {
    CustomerTopKeys();
    assert IsIdent("email");
    TopBinding(CustomerShape, "email");
  }

  lemma PhoneBinding()
    ensures BindsCustomerFields(PhonePath)
  {
    CustomerTopKeys();
    assert IsIdent("phone");
    TopBinding(CustomerShape, "phone");
  }

  lemma AddressBinding()
    ensures BindsCustomerFields(AddressPath)
  {
    CustomerRecordKeys();
    AddressKeys();
    assert IsIdent("address") && IsIdent("street") && IsIdent("city");
    assert IsIdent("state") && IsIdent("zipCode");
    var s := CustomerShape;
    NestedBinding(s, "address", "street");
    NestedBinding(s, "address", "city");
    NestedBinding(s, "address", "state");
    NestedBinding(s, "address", "zipCode");
    var p1, p2, p3, p4 := [["address", "street"]], [["address", "city"]], [["address", "state"]], [["address", "zipCode"]];
    BindsConcat(s, p1, p2);
    BindsConcat(s, p1 + p2, p3);
    BindsConcat(s, p1 + p2 + p3, p4);
    assert AddressPath == p1 + p2 + p3 + p4;
  }

  lemma PremiumBinding()
    ensures BindsCustomerFields(PremiumPath)
  {
    InsuranceInfoKeys();
    assert IsIdent("premium");
    InsuranceInfoBinding("premium");
  }

  lemma StartDateBinding()
    ensures BindsCustomerFields(StartDatePath)
  {
    InsuranceInfoKeys();
    assert IsIdent("startDate");
    InsuranceInfoBinding("startDate");
  }

  lemma EndDateBinding()
    ensures BindsCustomerFields(EndDatePath)
  {
    InsuranceInfoKeys();
    assert IsIdent("endDate");
    InsuranceInfoBinding("endDate");
  }

  lemma SharedBindingsNameCustomerFields()
    ensures BindsCustomerFields(PolicyNumberPath) && BindsCustomerFields(NamePath)
    ensures BindsCustomerFields(EmailPath) && BindsCustomerFields(PhonePath)
    ensures BindsCustomerFields(AddressPath) && BindsCustomerFields(PremiumPath)
    ensures BindsCustomerFields(StartDatePath) && BindsCustomerFields(EndDatePath)
  {
    PolicyNumberBinding();
    NameBinding();
    EmailBinding();
    PhoneBinding();
    AddressBinding();
    PremiumBinding();
    StartDateBinding();
    EndDateBinding();
  }

  lemma AutoPolicyUniqueIds()
    ensures UniqueFieldIds(AutoPolicy)
  {
  }

  lemma AutoPolicySelects()
    ensures SelectsHaveOptions(AutoPolicy)
  {
  }

  lemma AutoPolicyBindings()
    ensures BindingsNameCustomerFields(AutoPolicy)
  {
    SharedBindingsNameCustomerFields();
  }

  lemma AutoPolicyWellFormed()
    ensures WellFormedTemplate(AutoPolicy)
  {
    AutoPolicyUniqueIds();
    AutoPolicySelects();
    AutoPolicyBindings();
  }

  lemma HomePolicyUniqueIds()
    ensures UniqueFieldIds(HomePolicy)
  {
  }

  lemma HomePolicySelects()
    ensures SelectsHaveOptions(HomePolicy)
  {
  }

  lemma HomePolicyBindings()
    ensures BindingsNameCustomerFields(HomePolicy)
  {
    SharedBindingsNameCustomerFields();
  }

  lemma HomePolicyWellFormed()
    ensures WellFormedTemplate(HomePolicy)
  {
    HomePolicyUniqueIds();
    HomePolicySelects();
    HomePolicyBindings();
  }

  lemma ClaimFormUniqueIds()
    ensures UniqueFieldIds(ClaimForm)
  {
  }

  lemma ClaimFormSelects()
    ensures SelectsHaveOptions(ClaimForm)
  {
  }

  lemma ClaimFormBindings()
    ensures BindingsNameCustomerFields(ClaimForm)
  {
    SharedBindingsNameCustomerFields();
  }

  lemma ClaimFormWellFormed()
    ensures WellFormedTemplate(ClaimForm)
  {
    ClaimFormUniqueIds();
    ClaimFormSelects();
    ClaimFormBindings();
  }

  /** The registry: template ids are unique, and in every template field ids are unique,
      select fields have options and bound paths name Customer fields. */
  lemma RegistryWellFormed()
    ensures forall i, j | 0 <= i < j < |DocumentTemplates| :: DocumentTemplates[i].id != DocumentTemplates[j].id
    ensures forall i | 0 <= i < |DocumentTemplates| :: WellFormedTemplate(DocumentTemplates[i])
  {
    AutoPolicyWellFormed();
    HomePolicyWellFormed();
    ClaimFormWellFormed();
  }

  /** The one select field of the registry is the auto policy's `coverage`. */
  lemma OnlySelectIsCoverage()
    ensures forall i, j | 0 <= i < |DocumentTemplates| && 0 <= j < |DocumentTemplates[i].fields| &&
      DocumentTemplates[i].fields[j].kind == SelectField :: i == 0 && DocumentTemplates[i].fields[j].id == "coverage"
  {
  }

  /** The text of a bound path splits, part by trimmed part and key by key, into names
      of Customer fields; and the field's value is that of its key chains. */
  lemma BoundPathsResolveByChains(f: DocumentField, customer: Value)
    requires f.binding.Some? && BindsCustomerFields(f.binding.value)
    ensures forall i | 0 <= i < |Split(f.CustomerDataPath().value, ',')| ::
      NamesField(CustomerShape, Split(Trim(Split(f.CustomerDataPath().value, ',')[i], JavaScript), '.'))
    ensures Resolve(customer, f.CustomerDataPath().value) == JoinNonEmpty(ResolveChains(customer, f.binding.value))
  {
    var b := f.binding.value;
    PathTextParts(b);
    forall i | 0 <= i < |b| ensures NamesField(CustomerShape, Split(Trim(Dotted(b[i]), JavaScript), '.')) {
      DottedParses(b[i]);
    }
    PathTextResolves(customer, b);
  }

  /** A two-chain binding such as `firstName,lastName` gives the two results with one
      space between them, an empty one dropped. */
  lemma ResolveTwoChains(customer: Value, b: seq<seq<string>>)
    requires WellFormedBinding(b) && |b| == 2
    ensures Resolve(customer, PathText(b)) == Glue(ResolveKeys(customer, b[0]), ResolveKeys(customer, b[1]))
  {
    PathTextResolves(customer, b);
    var x, y := ResolveKeys(customer, b[0]), ResolveKeys(customer, b[1]);
    assert ResolveChains(customer, b) == [x] + [y];
    JoinNonEmptyCons(x, [y]);
    assert FilterNonEmpty([y]) == (if y == "" then [] else [y]);
  }
}
