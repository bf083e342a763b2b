/** Attribute declarations as the models write them (`allowNull`, `validate`,
    `defaultValue`), and the validation and defaulting they induce on an
    instance's attribute dictionary. */
module Schema {
  import opened JsValue

  /** One entry of a `validate: { ... }` block. */
  datatype Check =
    | Len(lo: nat, hi: nat)   // `len: [lo, hi]` on a string
    | Min(least: int)         // `min: least` on a number
    | IsEmail                 // `isEmail: true` on a string

  /** One attribute declaration. `allowNull` defaults to true when omitted. */
  datatype Column = Column(name: string, allowNull: bool, checks: seq<Check>, default: Option<Value>)

  datatype Failure = NotNull | CheckFailed(check: Check)

  /** A validation error, keyed by the attribute it concerns. */
  datatype Violation = Violation(attr: string, failure: Failure)

  /** Whether a non-null value passes one validator. The e-mail syntax rule
      belongs to the validator library and is a parameter. A value of the
      wrong kind for the validator fails it. */
  predicate Passes(check: Check, v: Value, isEmail: string -> bool) {
    match check
    case Len(lo, hi) => v.Str? && lo <= |v.s| <= hi
    case Min(least) => v.Num? && v.n >= least
    case IsEmail => v.Str? && isEmail(v.s)
  }

  /** The errors of one attribute: a null value is refused iff the column
      forbids null and then no validator runs; a non-null value is reported
      once for each validator it fails. */
  function ColumnViolations(c: Column, v: Value, isEmail: string -> bool): (errs: set<Violation>)
    ensures forall e :: e in errs ==> e.attr == c.name
    ensures IsNullish(v) ==> errs == (if c.allowNull then {} else {Violation(c.name, NotNull)})
    ensures !IsNullish(v) ==> forall e :: e in errs ==> e.failure.CheckFailed?
    ensures !IsNullish(v) ==>
      forall k :: Violation(c.name, CheckFailed(k)) in errs <==> k in c.checks && !Passes(k, v, isEmail)
    ensures !IsNullish(v) ==> (errs == {} <==> forall k :: k in c.checks ==> Passes(k, v, isEmail))
  {
    if IsNullish(v) then
      (if c.allowNull then {} else {Violation(c.name, NotNull)})
    else
      var errs := set k | k in c.checks && !Passes(k, v, isEmail) :: Violation(c.name, CheckFailed(k));
      assert forall k :: k in c.checks && !Passes(k, v, isEmail) ==> Violation(c.name, CheckFailed(k)) in errs;
      errs
  }

  /** Every error of every declared attribute: validation does not stop at the
      first failing attribute, and reports nothing but the attributes' own
      errors. */
  function Violations(columns: seq<Column>, values: Record, isEmail: string -> bool): (errs: set<Violation>)
    ensures forall i :: 0 <= i < |columns| ==> ColumnViolations(columns[i], Get(values, columns[i].name), isEmail) <= errs
    ensures forall e :: e in errs ==>
      exists i :: 0 <= i < |columns| && e in ColumnViolations(columns[i], Get(values, columns[i].name), isEmail)
    ensures forall e :: e in errs ==> exists i :: 0 <= i < |columns| && e.attr == columns[i].name
  {
    if columns == [] then {}
    else
      var rest := Violations(columns[1..], values, isEmail);
      var errs := ColumnViolations(columns[0], Get(values, columns[0].name), isEmail) + rest;
      forall i | 1 <= i < |columns|
        ensures ColumnViolations(columns[i], Get(values, columns[i].name), isEmail) <= errs
      {
        assert columns[i] == columns[1..][i - 1];
      }
      forall e | e in rest
        ensures exists i :: 0 <= i < |columns| && e in ColumnViolations(columns[i], Get(values, columns[i].name), isEmail)
        ensures exists i :: 0 <= i < |columns| && e.attr == columns[i].name
      {
        var j :| 0 <= j < |columns| - 1 && e in ColumnViolations(columns[1..][j], Get(values, columns[1..][j].name), isEmail);
        assert columns[1..][j] == columns[j + 1];
      }
      errs
  }

  /** Every error names an attribute of the declaration table: an error is
      only ever reported under a declared name. */
  lemma ViolationsNameDeclared(columns: seq<Column>, values: Record, isEmail: string -> bool, names: set<string>)
    requires forall c :: c in columns ==> c.name in names
    ensures forall e :: e in Violations(columns, values, isEmail) ==> e.attr in names
  {
    forall e | e in Violations(columns, values, isEmail) ensures e.attr in names {
      var i :| 0 <= i < |columns| && e.attr == columns[i].name;
      assert columns[i] in columns;
    }
  }

  /** One attribute of an instance passes its declaration: a null or missing
      value only where null is allowed, a present value every validator. */
  predicate ColumnOk(c: Column, values: Record, isEmail: string -> bool) {
    var v := Get(values, c.name);
    && (IsNullish(v) ==> c.allowNull)
    && (!IsNullish(v) ==> forall k :: k in c.checks ==> Passes(k, v, isEmail))
  }

  /** Validation passes iff every declared attribute passes on its own. */
  lemma {:induction false} NoViolationsIffEachColumn(columns: seq<Column>, values: Record, isEmail: string -> bool)
    ensures Violations(columns, values, isEmail) == {}
        <==> forall i :: 0 <= i < |columns| ==> ColumnOk(columns[i], values, isEmail)
  {
    if columns != [] {
      NoViolationsIffEachColumn(columns[1..], values, isEmail);
      assert forall i :: 1 <= i < |columns| ==> columns[i] == columns[1..][i - 1];
      var v := Get(values, columns[0].name);
      assert ColumnViolations(columns[0], v, isEmail) == {} <==> ColumnOk(columns[0], values, isEmail);
    }
  }

  /** A column with at most one validator passes iff its nullability rule
      holds and a non-null value passes that validator. */
  lemma ColumnOkIff(c: Column, values: Record, isEmail: string -> bool)
    requires |c.checks| <= 1
    ensures ColumnOk(c, values, isEmail) <==>
      var v := Get(values, c.name);
      && (IsNullish(v) ==> c.allowNull)
      && (!IsNullish(v) && c.checks != [] ==> Passes(c.checks[0], v, isEmail))
  {
    var v := Get(values, c.name);
    if !IsNullish(v) && c.checks != [] {
      assert c.checks[0] in c.checks;
    }
  }

  /** Building an instance: an attribute that was not supplied takes its
      declared default value. Only attributes with a default are ever added,
      and a key that no declaration names is left as supplied. */
  function ApplyDefaults(columns: seq<Column>, attrs: Record): (values: Record)
    ensures values.Keys >= attrs.Keys
    ensures forall k :: k in attrs && attrs[k] != Undefined ==> values[k] == attrs[k]
    ensures values.Keys <= attrs.Keys + set c | c in columns && c.default.Some? :: c.name
    ensures forall k :: (forall c :: c in columns ==> c.name != k) ==> Get(values, k) == Get(attrs, k)
  {
    if columns == [] then attrs
    else
      var values := ApplyDefaults(columns[1..], attrs);
      var c := columns[0];
      assert forall d :: d in columns[1..] ==> d in columns;
      if c.default.Some? && Get(values, c.name) == Undefined then values[c.name := c.default.value]
      else values
  }

  /** The attribute names of a declaration table are distinct, as the keys
      of the object literal that declares them are. */
  predicate DistinctNames(columns: seq<Column>) {
    forall i, j :: 0 <= i < j < |columns| ==> columns[i].name != columns[j].name
  }

  /** Every declared default is filled in where the attribute was not
      supplied. */
  lemma {:induction false} ApplyDefaultsFillsDefaults(columns: seq<Column>, attrs: Record)
    requires DistinctNames(columns)
    ensures forall i :: 0 <= i < |columns| && columns[i].default.Some? && Get(attrs, columns[i].name) == Undefined ==>
              Get(ApplyDefaults(columns, attrs), columns[i].name) == columns[i].default.value
  {
    if columns != [] {
      var rest := columns[1..];
      assert DistinctNames(rest) by {
        forall i, j | 0 <= i < j < |rest| ensures rest[i].name != rest[j].name {
          assert rest[i] == columns[i + 1] && rest[j] == columns[j + 1];
        }
      }
      ApplyDefaultsFillsDefaults(rest, attrs);
      forall i | 1 <= i < |columns| ensures columns[i] == rest[i - 1] && columns[i].name != columns[0].name { }
      forall c | c in rest ensures c.name != columns[0].name {
        var j :| 0 <= j < |rest| && rest[j] == c;
        assert c == columns[j + 1];
      }
    }
  }
}
