/**
 * The column-spec interpreter of the spreadsheet importer
 * (tools/arbo_import.py): the yes/no cell parsers, `resolve_val` over the
 * spec language of `COLMAP`, `make_object`, `make_altid`, the party-name
 * formatting of `make_party_patient` and the symptom and specimen assembly
 * of `make_notification`.
 */
module ArboImport {
  import opened Optional
  import opened PyStrings

  // ---------------------------------------------------------------------------
  // Cell values and the checker protocol

  /** A cell value as the spreadsheet reader hands it over, or a value a checker returns. */
  datatype Value =
    | Null                 // None: an empty cell
    | Str(s: string)
    | Int(i: int)
    | Bool(b: bool)
    | Object(text: string, truthy: bool) // any other object (a date, a time, a record): its `str` and its `bool`

  /** Python's `bool(v)`. */
  predicate Truthy(v: Value)
  {
    match v
    case Null => false
    case Str(s) => s != []
    case Int(i) => i != 0
    case Bool(b) => b
    case Object(_, truthy) => truthy
  }

  /** The pair `(could interpret, value)` every checker returns. */
  datatype Checked = Checked(good: bool, val: Value)

  /** What a Python call does: return a value, or raise. */
  datatype Outcome<T> = Returned(value: T) | Raised

  /** The string `isyes` looks a trimmed, lower-cased cell up in. */
  const YesWords := "yes true on 1"

  /** `isyes`: None is "no"; a string is "yes" when its trimmed lower-cased text occurs in YesWords. */
  function IsYes(v: Value): (r: Checked)
    ensures r.good <==> v.Null? || v.Str?
    ensures r.val.Bool?
    ensures v.Null? ==> r.val == Bool(false)
    ensures !r.good ==> r.val == Bool(Truthy(v))
  {
    match v
    case Null => Checked(true, Bool(false))
    case Str(s) => Checked(true, Bool(Contains(YesWords, Lower(Strip(s)))))
    case _ => Checked(false, Bool(Truthy(v)))
  }

  /** `isnotyes`: the verdict of `isyes`, negated. */
  function IsNotYes(v: Value): (r: Checked)
    ensures r.good == IsYes(v).good
    ensures Truthy(r.val) <==> !Truthy(IsYes(v).val)
    ensures r.val.Bool?
  {
    var c := IsYes(v);
    Checked(c.good, Bool(!Truthy(c.val)))
  }

  /** `isbool_true`: Python truthiness, always interpretable. */
  function IsBoolTrue(v: Value): (r: Checked)
    ensures r.good
    ensures Truthy(r.val) <==> Truthy(v)
    ensures r.val.Bool?
  {
    Checked(true, Bool(Truthy(v)))
  }

  /** needle occurs in hay at position i. */
  predicate OccursAt(hay: string, needle: string, i: int)
  {
    0 <= i && i + |needle| <= |hay| && hay[i..i + |needle|] == needle
  }

  /**
   * What `isyes` decides: None and strings are interpretable, None as "no"
   * and a string as "yes" exactly when its trimmed lower-cased text occurs
   * somewhere in YesWords; any other value is not interpretable and carries
   * its truthiness.
   */
  lemma IsYesMeaning(v: Value)
    ensures IsYes(v).good <==> v.Null? || v.Str?
    ensures v.Null? ==> IsYes(v).val == Bool(false)
    ensures v.Str? ==> (Truthy(IsYes(v).val) <==>
                          exists i :: OccursAt(YesWords, Lower(Strip(v.s)), i))
    ensures !v.Null? && !v.Str? ==> IsYes(v).val == Bool(Truthy(v))
  {
    if v.Str? {
      var t := Lower(Strip(v.s));
      if Contains(YesWords, t) {
        var i := ContainsOccurs(YesWords, t);
        assert OccursAt(YesWords, t, i);
      }
      if i :| OccursAt(YesWords, t, i) {
        ContainsAt(YesWords, t, i);
      }
    }
  }

  /** Because `isyes` tests for a substring, the empty cell text and fragments such as "e" read as yes. */
  lemma YesExamples()
    ensures IsYes(Str("")) == Checked(true, Bool(true))
    ensures IsYes(Str("e")) == Checked(true, Bool(true))
  {
    YesWhenOccurs("", 0);
    assert Lower(Strip("e")) == "e";
    YesWhenOccurs("e", 1);
  }

  /** Letter case and surrounding blanks do not matter. */
  lemma CaseAndBlanksIgnored()
    ensures IsYes(Str("Yes")) == Checked(true, Bool(true))
    ensures IsYes(Str(" ON ")) == Checked(true, Bool(true))
  {
    assert StripStart("Yes") == 0;
    assert StripEnd("Yes") == 3;
    assert Lower(Strip("Yes")) == "yes";
    YesWhenOccurs("Yes", 0);
    assert StripStart(" ON ") == 1;
    assert StripEnd(" ON ") == 3;
    assert Lower(Strip(" ON ")) == "on";
    YesWhenOccurs(" ON ", 9);
  }

  /** "no" reads as no, and a number is not interpretable however truthy. */
  lemma NoExamples()
    ensures IsYes(Str("no")) == Checked(true, Bool(false))
    ensures IsYes(Int(1)) == Checked(false, Bool(true))
  {
    assert StripStart("no") == 0 && StripEnd("no") == 2;
    assert Lower(Strip("no")) == "no";
    NoOccursNowhere();
    IsYesMeaning(Str("no"));
  }

  /** "no" is not a substring of YesWords: its only 'n' is followed by a blank. */
  lemma NoOccursNowhere()
    ensures forall i :: !OccursAt(YesWords, "no", i)
  {
    forall i | 0 <= i && i + 2 <= |YesWords|
      ensures !OccursAt(YesWords, "no", i)
    {
      assert YesWords[i..i + 2][0] == YesWords[i];
      assert YesWords[i..i + 2][1] == YesWords[i + 1];
      if YesWords[i] == 'n' {
        assert i == 10;
        assert YesWords[i + 1] == ' ';
      }
    }
  }

  /** A cell whose trimmed lower-cased text occurs in YesWords reads as yes. */
  lemma YesWhenOccurs(s: string, i: int)
    requires OccursAt(YesWords, Lower(Strip(s)), i)
    ensures IsYes(Str(s)) == Checked(true, Bool(true))
  {
    ContainsAt(YesWords, Lower(Strip(s)), i);
  }

  /** The checker a spec tuple names: one of the parsers above, or a database lookup. */
  datatype Checker =
    | IsYesFn
    | IsNotYesFn
    | IsBoolTrueFn
    | Foreign(call: (Value, seq<Value>) -> Outcome<Checked>) // lookup, selection_lookup, po_lookup

  /** `fn(arg1, *args)`: the three parsers take one argument, so extra arguments raise a TypeError. */
  function Call(fn: Checker, arg: Value, extra: seq<Value>): (r: Outcome<Checked>)
    ensures !fn.Foreign? ==> (r.Raised? <==> extra != [])
    ensures fn.IsYesFn? && extra == [] ==> r == Returned(IsYes(arg))
    ensures fn.IsNotYesFn? && extra == [] ==> r == Returned(IsNotYes(arg))
    ensures fn.IsBoolTrueFn? && extra == [] ==> r == Returned(IsBoolTrue(arg))
    ensures fn.Foreign? ==> r == fn.call(arg, extra)
  {
    match fn
    case Foreign(call) => call(arg, extra)
    case IsYesFn => if extra != [] then Raised else Returned(IsYes(arg))
    case IsNotYesFn => if extra != [] then Raised else Returned(IsNotYes(arg))
    case IsBoolTrueFn => if extra != [] then Raised else Returned(IsBoolTrue(arg))
  }

  // ---------------------------------------------------------------------------
  // resolve_val

  /** A `COLMAP` entry. */
  datatype Spec =
    | Literal(text: string)                             // a string stands for itself
    | Column(index: int)                                // an int is a 1-based cell index
    | Joined(parts: seq<Spec>)                          // a list: space-join the truthy parts
    | Apply(fn: Checker, arg: Spec, extra: seq<Value>)  // a tuple: checker, argument spec, literal arguments
    | Unrecognised                                      // anything else: resolve_val returns None

  /** `row[n - 1].value` with Python indexing: indices below 1 count from the end of the row. */
  function Cell(row: seq<Value>, n: int): (r: Outcome<Value>)
    ensures 1 <= n <= |row| ==> r == Returned(row[n - 1])
    ensures 1 - |row| <= n <= 0 ==> r == Returned(row[|row| + n - 1])
    ensures r.Raised? <==> n > |row| || n <= -|row|
  {
    var i := n - 1;
    if 0 <= i < |row| then Returned(row[i])
    else if -|row| <= i < 0 then Returned(row[|row| + i])
    else Raised
  }

  /** `filter(None, vals)`: the truthy values, in order. */
  function Kept(vals: seq<Value>): (r: seq<Value>)
    ensures |r| <= |vals|
    ensures forall v :: v in r <==> v in vals && Truthy(v)
  {
    if vals == [] then []
    else (if Truthy(vals[0]) then [vals[0]] else []) + Kept(vals[1..])
  }

  /** `filter` keeps the order and the repeats of what it keeps: filtering a concatenation filters each part. */
  lemma {:induction false} KeptAppend(a: seq<Value>, b: seq<Value>)
    ensures Kept(a + b) == Kept(a) + Kept(b)
  {
    if a == [] {
      assert a + b == b;
    } else {
      assert (a + b)[1..] == a[1..] + b;
      KeptAppend(a[1..], b);
    }
  }

  /** The texts of values that are all strings. */
  function Texts(vals: seq<Value>): (r: seq<string>)
    requires forall k :: 0 <= k < |vals| ==> vals[k].Str?
    ensures |r| == |vals| && forall k :: 0 <= k < |vals| ==> vals[k] == Str(r[k])
  {
    seq(|vals|, k requires 0 <= k < |vals| => vals[k].s)
  }

  /** `' '.join(filter(None, vals))`: a TypeError when a kept value is not a string. */
  function JoinTruthy(vals: seq<Value>): (r: Outcome<Value>)
    ensures r.Raised? <==> exists v :: v in vals && Truthy(v) && !v.Str?
    ensures r.Returned? ==> r.value.Str?
  {
    var kept := Kept(vals);
    if forall k :: 0 <= k < |kept| ==> kept[k].Str? then Returned(Str(Join(" ", Texts(kept))))
    else Raised
  }

  /** `resolve_val(row, spec)`. */
  function Resolve(row: seq<Value>, spec: Spec): (r: Outcome<Value>)
    ensures spec.Literal? ==> r == Returned(Str(spec.text))
    ensures spec.Column? ==> r == Cell(row, spec.index)
    ensures spec.Joined? && r.Returned? ==> r.value.Str?
    ensures spec.Apply? && !spec.fn.Foreign? && r.Returned? ==> r.value.Bool?
    ensures spec.Unrecognised? ==> r == Returned(Null)
    decreases spec
  {
    match spec
    case Literal(text) => Returned(Str(text))
    case Column(n) => Cell(row, n)
    case Joined(parts) =>
      (match ResolveAll(row, parts)
       case Raised => Raised
       case Returned(vals) => JoinTruthy(vals))
    case Apply(fn, arg, extra) =>
      (match Resolve(row, arg)
       case Raised => Raised
       case Returned(v) =>
         match Call(fn, v, extra)
         case Raised => Raised
         case Returned(c) => if c.good then Returned(c.val) else Raised)
    case Unrecognised => Returned(Null)
  }

  /**
   * A tuple entry `(fn, arg, extra...)`: it resolves exactly when its argument
   * resolves and the checker returns with its flag set, and then it is the
   * checker's value; a built-in checker given extra arguments raises.
   */
  lemma ApplyMeaning(row: seq<Value>, fn: Checker, arg: Spec, extra: seq<Value>)
    ensures var r, a := Resolve(row, Apply(fn, arg, extra)), Resolve(row, arg);
            r.Returned? <==> a.Returned? && Call(fn, a.value, extra).Returned? && Call(fn, a.value, extra).value.good
    ensures var r, a := Resolve(row, Apply(fn, arg, extra)), Resolve(row, arg);
            r.Returned? ==> r.value == Call(fn, a.value, extra).value.val
    ensures !fn.Foreign? && extra != [] ==> Resolve(row, Apply(fn, arg, extra)).Raised?
  {
  }

  /** The list comprehension `[resolve_val(row, x) for x in specs]`: the first exception propagates. */
  function ResolveAll(row: seq<Value>, specs: seq<Spec>): (r: Outcome<seq<Value>>)
    ensures r.Returned? ==> |r.value| == |specs|
    ensures specs != [] && Resolve(row, specs[0]).Raised? ==> r.Raised?
    decreases specs
  {
    if specs == [] then Returned([])
    else
      match Resolve(row, specs[0])
      case Raised => Raised
      case Returned(v) =>
        match ResolveAll(row, specs[1..])
        case Raised => Raised
        case Returned(vs) => Returned([v] + vs)
  }

  /** The comprehension returns exactly when every part resolves, and then it holds their values in order. */
  lemma {:induction false} ResolveAllPointwise(row: seq<Value>, specs: seq<Spec>)
    ensures ResolveAll(row, specs).Returned? <==>
              forall k :: 0 <= k < |specs| ==> Resolve(row, specs[k]).Returned?
    ensures ResolveAll(row, specs).Returned? ==>
              |ResolveAll(row, specs).value| == |specs| &&
              forall k :: 0 <= k < |specs| ==> Resolve(row, specs[k]) == Returned(ResolveAll(row, specs).value[k])
    decreases specs
  {
    if specs != [] {
      ResolveAllPointwise(row, specs[1..]);
      assert forall k :: 1 <= k < |specs| ==> specs[k] == specs[1..][k - 1];
    }
  }

  /**
   * A list spec resolves exactly when every part resolves and every truthy
   * part is a string; it is then the space-join of the truthy parts, in order.
   */
  lemma JoinedMeaning(row: seq<Value>, parts: seq<Spec>)
    ensures Resolve(row, Joined(parts)).Returned? <==>
              (forall k :: 0 <= k < |parts| ==> Resolve(row, parts[k]).Returned?) &&
              (forall k :: 0 <= k < |parts| && Truthy(Resolve(row, parts[k]).value) ==>
                 Resolve(row, parts[k]).value.Str?)
    ensures Resolve(row, Joined(parts)).Returned? ==>
              var vals := ResolveAll(row, parts).value;
              Resolve(row, Joined(parts)) == Returned(Str(Join(" ", Texts(Kept(vals)))))
  {
    ResolveAllPointwise(row, parts);
    var all := ResolveAll(row, parts);
    if all.Returned? {
      var vals := all.value;
      if exists v :: v in vals && Truthy(v) && !v.Str? {
        var v :| v in vals && Truthy(v) && !v.Str?;
        var k :| 0 <= k < |vals| && vals[k] == v;
        assert Resolve(row, parts[k]).value == v;
      }
      assert forall k :: 0 <= k < |parts| ==> vals[k] in vals;
    } else {
      var k :| 0 <= k < |parts| && !Resolve(row, parts[k]).Returned?;
    }
  }

  /**
   * A tuple spec with `isyes` over a column resolves to the cell's yes/no
   * verdict when the cell is empty or holds text, and raises when the cell is
   * missing or holds a number, a boolean or any other object.
   */
  lemma YesColumnMeaning(row: seq<Value>, col: int)
    ensures Resolve(row, Apply(IsYesFn, Column(col), [])).Returned? <==>
              Cell(row, col).Returned? && (Cell(row, col).value.Null? || Cell(row, col).value.Str?)
    ensures Resolve(row, Apply(IsYesFn, Column(col), [])).Returned? ==>
              Resolve(row, Apply(IsYesFn, Column(col), [])) == Returned(IsYes(Cell(row, col).value).val)
  {
    if Cell(row, col).Returned? {
      IsYesMeaning(Cell(row, col).value);
    }
  }

  /** The cell indices a spec reads. */
  function Cells(spec: Spec): set<int>
    decreases spec
  {
    match spec
    case Literal(_) => {}
    case Column(n) => {n}
    case Joined(parts) => CellsAll(parts)
    case Apply(_, arg, _) => Cells(arg)
    case Unrecognised => {}
  }

  function CellsAll(specs: seq<Spec>): set<int>
    decreases specs
  {
    if specs == [] then {} else Cells(specs[0]) + CellsAll(specs[1..])
  }

  /** Resolution depends on no cell but those the spec names: rows that agree there resolve alike. */
  lemma {:induction false} ResolveReadsItsCells(row1: seq<Value>, row2: seq<Value>, spec: Spec)
    requires forall n :: n in Cells(spec) ==> Cell(row1, n) == Cell(row2, n)
    ensures Resolve(row1, spec) == Resolve(row2, spec)
    decreases spec
  {
    match spec
    case Literal(_) =>
    case Column(n) =>
    case Joined(parts) =>
      ResolveAllReadsItsCells(row1, row2, parts);
    case Apply(_, arg, _) =>
      ResolveReadsItsCells(row1, row2, arg);
    case Unrecognised =>
  }

  lemma {:induction false} ResolveAllReadsItsCells(row1: seq<Value>, row2: seq<Value>, specs: seq<Spec>)
    requires forall n :: n in CellsAll(specs) ==> Cell(row1, n) == Cell(row2, n)
    ensures ResolveAll(row1, specs) == ResolveAll(row2, specs)
    decreases specs
  {
    if specs != [] {
      ResolveReadsItsCells(row1, row2, specs[0]);
      ResolveAllReadsItsCells(row1, row2, specs[1..]);
    }
  }

  // ---------------------------------------------------------------------------
  // make_object

  /** The spec for key k exists and resolves without raising. */
  predicate Resolves(row: seq<Value>, specs: map<string, Spec>, k: string)
  {
    k in specs && Resolve(row, specs[k]).Returned?
  }

  /**
   * The dict `make_object` returns: the entries of initial, overwritten or
   * extended by exactly the spec keys that resolve; a key whose spec raises
   * keeps its initial entry or is absent, never set to None.
   */
  function ObjectOf(row: seq<Value>, specs: map<string, Spec>, initial: map<string, Value>): (out: map<string, Value>)
    ensures forall k :: k in out <==> k in initial || Resolves(row, specs, k)
    ensures forall k :: Resolves(row, specs, k) ==> out[k] == Resolve(row, specs[k]).value
    ensures forall k :: k in initial && !Resolves(row, specs, k) ==> out[k] == initial[k]
  {
    map k | k in initial.Keys + specs.Keys && (k in initial || Resolves(row, specs, k)) ::
      if Resolves(row, specs, k) then Resolve(row, specs[k]).value else initial[k]
  }

  /** Adding one spec key extends the object by that key's value when it resolves, and changes nothing when it raises. */
  lemma ObjectOfAddKey(row: seq<Value>, specs: map<string, Spec>, initial: map<string, Value>, k: string, spec: Spec)
    requires k !in specs
    ensures ObjectOf(row, specs[k := spec], initial) ==
              if Resolve(row, spec).Returned? then ObjectOf(row, specs, initial)[k := Resolve(row, spec).value]
              else ObjectOf(row, specs, initial)
  {
    var bigger := specs[k := spec];
    var before, after := ObjectOf(row, specs, initial), ObjectOf(row, bigger, initial);
    assert forall j :: j != k ==> (Resolves(row, bigger, j) <==> Resolves(row, specs, j));
    assert !Resolves(row, specs, k);
    var expected := if Resolve(row, spec).Returned? then before[k := Resolve(row, spec).value] else before;
    assert forall j :: j in after <==> j in expected;
    assert forall j :: j in after ==> after[j] == expected[j];
  }

  /** `make_object`: copy initial, then resolve every spec key in dict order, skipping keys that raise. */
  method MakeObject(row: seq<Value>, specs: map<string, Spec>, initial: map<string, Value>)
    returns (out: map<string, Value>)
    ensures out == ObjectOf(row, specs, initial)
  {
    out := initial;
    var pending := specs.Keys;
    while pending != {}
      invariant pending <= specs.Keys
      invariant out == ObjectOf(row, specs - pending, initial)
      decreases pending
    {
      var k :| k in pending;
      var r := Resolve(row, specs[k]);
      if r.Returned? {
        out := out[k := r.value];
      }
      ObjectOfAddKey(row, specs - pending, initial, k, specs[k]);
      assert specs - (pending - {k}) == (specs - pending)[k := specs[k]];
      pending := pending - {k};
    }
    assert specs - pending == specs;
  }

  /** Two rows that agree on every cell the specs read give the same object. */
  lemma ObjectReadsItsCells(row1: seq<Value>, row2: seq<Value>, specs: map<string, Spec>, initial: map<string, Value>)
    requires forall k, n :: k in specs && n in Cells(specs[k]) ==> Cell(row1, n) == Cell(row2, n)
    ensures ObjectOf(row1, specs, initial) == ObjectOf(row2, specs, initial)
  {
    forall k | k in specs
      ensures Resolve(row1, specs[k]) == Resolve(row2, specs[k])
    {
      ResolveReadsItsCells(row1, row2, specs[k]);
    }
  }

  // ---------------------------------------------------------------------------
  // make_altid

  /** One entry of the `('create', [...])` list make_altid builds. */
  datatype AltIdCreate = AltIdCreate(alternativeIdType: string, code: Value, comments: string)

  datatype AltIdResult = AltIdResult(good: bool, creates: Option<seq<AltIdCreate>>)

  /**
   * `make_altid(val, alt_id_type)`: nothing for a falsy value; otherwise one
   * create whose type is always "other", whose code is val and whose comments
   * hold alt_id_type.
   */
  function MakeAltId(val: Value, altIdType: string): (r: AltIdResult)
    ensures r.good <==> Truthy(val)
    ensures !r.good ==> r.creates.None?
    ensures r.good ==> r.creates.Some? && |r.creates.value| == 1
    ensures r.good ==> var c := r.creates.value[0];
                       c.alternativeIdType == "other" && c.code == val && c.comments == altIdType
  {
    if Truthy(val) then AltIdResult(true, Some([AltIdCreate("other", val, altIdType)]))
    else AltIdResult(false, None)
  }

  // ---------------------------------------------------------------------------
  // The party name (make_party_patient)

  /** Python's `format` of a value in a `{}` field. */
  function Format(v: Value): string
  {
    match v
    case Null => "None"
    case Str(s) => s
    case Int(i) => IntToString(i)
    case Bool(b) => if b then "True" else "False"
    case Object(text, _) => text
  }

  /** `d.get(key)`. */
  function GetOrNull(d: map<string, Value>, key: string): Value
  {
    if key in d then d[key] else Null
  }

  /** `' '.join(filter(None, [first, last]))`. */
  function JoinNames(first: Value, last: Value): Outcome<string>
  {
    match JoinTruthy([first, last])
    case Raised => Raised
    case Returned(v) => Returned(v.s)
  }

  /**
   * The name as make_party_patient builds it: `"{lastname}, {firstname}"`
   * whenever both keys are present, whatever they hold, and the join of the
   * truthy ones after the KeyError otherwise.
   */
  function PartyNameAsWritten(party: map<string, Value>): (r: Outcome<string>)
    ensures "lastname" in party && "firstname" in party ==>
              r == Returned(Format(party["lastname"]) + ", " + Format(party["firstname"]))
  {
    if "lastname" in party && "firstname" in party then
      Returned(Format(party["lastname"]) + ", " + Format(party["firstname"]))
    else
      JoinNames(GetOrNull(party, "firstname"), GetOrNull(party, "lastname"))
  }

  /**
   * When a name key is absent, `format` raises KeyError and the name is the
   * join of the truthy parts: a TypeError when one of them is not a string,
   * otherwise the one name that is present, or "" when it is empty.
   */
  lemma PartyNameFallback(party: map<string, Value>)
    requires !("lastname" in party && "firstname" in party)
    ensures var last, first := GetOrNull(party, "lastname"), GetOrNull(party, "firstname");
            && (PartyNameAsWritten(party).Raised? <==> (Truthy(first) && !first.Str?) || (Truthy(last) && !last.Str?))
            && (!Truthy(last) && first.Str? ==> PartyNameAsWritten(party) == Returned(first.s))
            && (!Truthy(first) && last.Str? ==> PartyNameAsWritten(party) == Returned(last.s))
            && (!Truthy(first) && !Truthy(last) ==> PartyNameAsWritten(party) == Returned(""))
  {
    var last, first := GetOrNull(party, "lastname"), GetOrNull(party, "firstname");
    assert !Truthy(first) || !Truthy(last);
    if Truthy(first) {
      assert Kept([first, last]) == [first];
    } else if Truthy(last) {
      assert Kept([first, last]) == [last];
    } else {
      assert Kept([first, last]) == [];
    }
  }

  /** The spec map `COLMAP['party']` gives the two name keys. */
  function NameSpecs(): map<string, Spec>
  {
    map["lastname" := Column(5), "firstname" := Column(4)]
  }

  /**
   * An empty last-name cell resolves to None without raising, so the key is
   * present and the name reads "None, Ann".
   */
  lemma EmptyLastNameCell()
    ensures var party := ObjectOf([Null, Null, Null, Str("Ann"), Null], NameSpecs(), map[]);
            party["lastname"] == Null && PartyNameAsWritten(party) == Returned("None, Ann")
  {
    var row := [Null, Null, Null, Str("Ann"), Null];
    var party := ObjectOf(row, NameSpecs(), map[]);
    assert Resolve(row, Column(5)) == Returned(Null);
    assert Resolve(row, Column(4)) == Returned(Str("Ann"));
    assert Resolves(row, NameSpecs(), "lastname");
    assert Resolves(row, NameSpecs(), "firstname");
    assert party["lastname"] == Null && party["firstname"] == Str("Ann");
    assert Format(Null) + ", " + Format(Str("Ann")) == "None, Ann";
  }

  /**
   * The name as evidently intended: `"lastname, firstname"` when both parts
   * are non-empty, otherwise the join of the non-empty ones.
   */
  function PartyName(party: map<string, Value>): Outcome<string>
  {
    var last, first := GetOrNull(party, "lastname"), GetOrNull(party, "firstname");
    if Truthy(last) && Truthy(first) then Returned(Format(last) + ", " + Format(first))
    else JoinNames(first, last)
  }

  /**
   * The intended name never shows an empty part: with both names it is
   * "Last, First", with only one name it is that name, and with none it is
   * empty; it agrees with the code as written whenever both cells are filled.
   */
  lemma PartyNameMeaning(party: map<string, Value>)
    ensures var last, first := GetOrNull(party, "lastname"), GetOrNull(party, "firstname");
            (Truthy(last) && Truthy(first) ==>
               PartyName(party) == Returned(Format(last) + ", " + Format(first)) &&
               PartyName(party) == PartyNameAsWritten(party)) &&
            (!Truthy(last) && first.Str? ==> PartyName(party) == Returned(first.s)) &&
            (!Truthy(first) && last.Str? ==> PartyName(party) == Returned(last.s)) &&
            (!Truthy(first) && !Truthy(last) ==> PartyName(party) == Returned(""))
  {
    var last, first := GetOrNull(party, "lastname"), GetOrNull(party, "firstname");
    if !Truthy(last) && first.Str? {
      if Truthy(first) {
        assert Kept([first, last]) == [first];
      } else {
        assert Kept([first, last]) == [];
      }
    }
    if !Truthy(first) && last.Str? {
      if Truthy(last) {
        assert Kept([first, last]) == [last];
      } else {
        assert Kept([first, last]) == [];
      }
    }
    if !Truthy(first) && !Truthy(last) {
      assert Kept([first, last]) == [];
    }
  }

  // ---------------------------------------------------------------------------
  // Symptoms and specimen (make_notification)

  /** One symptom create: the pathology of its column and, for fever, the onset date. */
  datatype Symptom = Symptom(pathology: Value, dateOnset: Option<Value>)

  /** The fever column (R50.9) and the column holding its onset date. */
  const FeverColumn := 33
  const FeverOnsetColumn := 34

  /** Every column iterated is a key of the column-to-pathology map. */
  predicate Mapped(columns: seq<int>, ids: map<int, Value>)
  {
    forall k :: 0 <= k < |columns| ==> columns[k] in ids
  }

  /** `for col in SYMPTOM_IDS`: the columns visit every key of the map, each exactly once. */
  predicate EachKeyOnce(columns: seq<int>, ids: map<int, Value>)
  {
    && (forall c :: c in ids ==> c in columns)
    && (forall i, j :: 0 <= i < j < |columns| ==> columns[i] != columns[j])
  }

  /**
   * The symptom list make_notification builds, iterating the columns of the
   * map in the order given; the first raising resolution propagates.
   */
  function SymptomList(row: seq<Value>, columns: seq<int>, ids: map<int, Value>): Outcome<seq<Symptom>>
    requires Mapped(columns, ids)
    decreases |columns|
  {
    if columns == [] then Returned([])
    else
      match SymptomList(row, columns[..|columns| - 1], ids)
      case Raised => Raised
      case Returned(done) => AddSymptom(row, done, columns[|columns| - 1], ids)
  }

  /** One iteration of the loop: the entry for col, if its cell reads as yes, appended to done. */
  function AddSymptom(row: seq<Value>, done: seq<Symptom>, col: int, ids: map<int, Value>): Outcome<seq<Symptom>>
    requires col in ids
  {
    match Resolve(row, Apply(IsYesFn, Column(col), []))
    case Raised => Raised
    case Returned(yes) =>
      if !Truthy(yes) then Returned(done)
      else if col != FeverColumn then Returned(done + [Symptom(ids[col], None)])
      else
        match Cell(row, FeverOnsetColumn)
        case Raised => Raised
        case Returned(onset) =>
          Returned(done + [Symptom(ids[col], if Truthy(onset) then Some(onset) else None)])
  }

  /** The list over one more column is the list so far extended by that column's iteration. */
  lemma SymptomListSnoc(row: seq<Value>, columns: seq<int>, ids: map<int, Value>, i: nat)
    requires Mapped(columns, ids) && i < |columns|
    ensures Mapped(columns[..i], ids) && Mapped(columns[..i + 1], ids)
    ensures SymptomList(row, columns[..i + 1], ids) ==
              match SymptomList(row, columns[..i], ids)
              case Raised => Raised
              case Returned(done) => AddSymptom(row, done, columns[i], ids)
  {
    assert columns[..i + 1][..i] == columns[..i];
  }

  /** The cell of column c exists and is one `isyes` can interpret: empty or text. */
  predicate Interpretable(row: seq<Value>, c: int)
  {
    Cell(row, c).Returned? && (Cell(row, c).value.Null? || Cell(row, c).value.Str?)
  }

  /** The cell of column c is interpretable by `isyes` and reads as yes. */
  predicate CellSaysYes(row: seq<Value>, c: int)
  {
    Cell(row, c).Returned? && IsYes(Cell(row, c).value) == Checked(true, Bool(true))
  }

  /** The columns whose cell reads as yes, in iteration order. */
  function YesColumns(row: seq<Value>, columns: seq<int>): (r: seq<int>)
    ensures forall c :: c in r ==> c in columns && CellSaysYes(row, c)
    decreases |columns|
  {
    if columns == [] then []
    else
      var rest := YesColumns(row, columns[..|columns| - 1]);
      var c := columns[|columns| - 1];
      if CellSaysYes(row, c) then rest + [c] else rest
  }

  /** The fever entry's onset: column 34's value when it is truthy. */
  function FeverOnset(row: seq<Value>): Option<Value>
  {
    if Cell(row, FeverOnsetColumn).Returned? && Truthy(Cell(row, FeverOnsetColumn).value)
    then Some(Cell(row, FeverOnsetColumn).value) else None
  }

  /** One entry of the symptom list, for a column that reads as yes. */
  predicate IsEntryFor(row: seq<Value>, ids: map<int, Value>, c: int, s: Symptom)
  {
    c in ids && s.pathology == ids[c] &&
    s.dateOnset == (if c == FeverColumn then FeverOnset(row) else None)
  }

  /**
   * When the symptom list is built, there is exactly one entry per column
   * that reads as yes, in order, and only the fever entry carries an onset
   * date, taken from column 34 when that cell is not empty.
   */
  lemma {:induction false} SymptomsMeaning(row: seq<Value>, columns: seq<int>, ids: map<int, Value>)
    requires Mapped(columns, ids)
    requires SymptomList(row, columns, ids).Returned?
    ensures var s, yes := SymptomList(row, columns, ids).value, YesColumns(row, columns);
            |s| == |yes| && forall k :: 0 <= k < |s| ==> IsEntryFor(row, ids, yes[k], s[k])
    decreases |columns|
  {
    if columns != [] {
      var init, col := columns[..|columns| - 1], columns[|columns| - 1];
      SymptomListLast(row, columns, ids);
      SymptomsMeaning(row, init, ids);
      var done := SymptomList(row, init, ids).value;
      AddSymptomMeaning(row, done, col, ids);
      var s := SymptomList(row, columns, ids).value;
      var yes, before := YesColumns(row, columns), YesColumns(row, init);
      assert yes == if CellSaysYes(row, col) then before + [col] else before;
      forall k | 0 <= k < |s|
        ensures IsEntryFor(row, ids, yes[k], s[k])
      {
        if k < |done| {
          assert s[k] == done[k] && yes[k] == before[k];
        }
      }
    }
  }

  /**
   * A symptom column whose cell is missing, or holds a number, a boolean or
   * a date, makes the whole symptom list, and so make_notification, raise.
   */
  lemma SymptomsRaiseOnUninterpretable(row: seq<Value>, columns: seq<int>, ids: map<int, Value>, k: nat)
    requires Mapped(columns, ids) && k < |columns|
    requires !Interpretable(row, columns[k])
    ensures SymptomList(row, columns, ids).Raised?
  {
    SymptomListSnoc(row, columns, ids, k);
    YesColumnMeaning(row, columns[k]);
    SymptomListRaisedPrefix(row, columns, ids, k + 1);
  }

  /** One iteration succeeds on an interpretable cell, given column 34 exists when it is the fever column saying yes. */
  lemma AddSymptomSucceeds(row: seq<Value>, done: seq<Symptom>, col: int, ids: map<int, Value>)
    requires col in ids
    requires Interpretable(row, col)
    requires col == FeverColumn && CellSaysYes(row, col) ==> Cell(row, FeverOnsetColumn).Returned?
    ensures AddSymptom(row, done, col, ids).Returned?
  {
    YesColumnMeaning(row, col);
  }

  /**
   * Conversely, the symptom list is built whenever every symptom cell is
   * empty or text and, when fever reads as yes, column 34 exists.
   */
  lemma {:induction false} SymptomsSucceed(row: seq<Value>, columns: seq<int>, ids: map<int, Value>)
    requires Mapped(columns, ids)
    requires forall k :: 0 <= k < |columns| ==> Interpretable(row, columns[k])
    requires FeverColumn in columns && CellSaysYes(row, FeverColumn) ==> Cell(row, FeverOnsetColumn).Returned?
    ensures SymptomList(row, columns, ids).Returned?
    decreases |columns|
  {
    if columns != [] {
      var init, last := columns[..|columns| - 1], columns[|columns| - 1];
      assert forall k :: 0 <= k < |init| ==> init[k] == columns[k];
      assert FeverColumn in init ==> FeverColumn in columns;
      SymptomsSucceed(row, init, ids);
      assert last in columns;
      AddSymptomSucceeds(row, SymptomList(row, init, ids).value, last, ids);
    }
  }

  /** When fever reads as yes but the row has no column 34, `resolve_val(row, 34)` raises and so does the list. */
  lemma SymptomsRaiseOnMissingFeverOnset(row: seq<Value>, columns: seq<int>, ids: map<int, Value>)
    requires Mapped(columns, ids)
    requires FeverColumn in columns && CellSaysYes(row, FeverColumn)
    requires Cell(row, FeverOnsetColumn).Raised?
    ensures SymptomList(row, columns, ids).Raised?
  {
    var k :| 0 <= k < |columns| && columns[k] == FeverColumn;
    SymptomListSnoc(row, columns, ids, k);
    YesColumnMeaning(row, FeverColumn);
    SymptomListRaisedPrefix(row, columns, ids, k + 1);
  }

  /** A built list is the built list of all but the last column, extended by the last column's iteration. */
  lemma SymptomListLast(row: seq<Value>, columns: seq<int>, ids: map<int, Value>)
    requires Mapped(columns, ids) && columns != []
    requires SymptomList(row, columns, ids).Returned?
    ensures Mapped(columns[..|columns| - 1], ids)
    ensures SymptomList(row, columns[..|columns| - 1], ids).Returned?
    ensures SymptomList(row, columns, ids) ==
              AddSymptom(row, SymptomList(row, columns[..|columns| - 1], ids).value, columns[|columns| - 1], ids)
  {
  }

  /** One iteration appends the entry of col exactly when its cell reads as yes, and needs the cell to be interpretable. */
  lemma AddSymptomMeaning(row: seq<Value>, done: seq<Symptom>, col: int, ids: map<int, Value>)
    requires col in ids
    requires AddSymptom(row, done, col, ids).Returned?
    ensures Interpretable(row, col)
    ensures var s := AddSymptom(row, done, col, ids).value;
            if CellSaysYes(row, col) then |s| == |done| + 1 && s[..|done|] == done && IsEntryFor(row, ids, col, s[|done|])
            else s == done
  {
    YesColumnMeaning(row, col);
    IsYesMeaning(Cell(row, col).value);
  }

  /** A raising prefix makes the whole list raise: the loop stops at the first exception. */
  lemma {:induction false} SymptomListRaisedPrefix(row: seq<Value>, columns: seq<int>, ids: map<int, Value>, i: nat)
    requires Mapped(columns, ids) && i <= |columns|
    requires Mapped(columns[..i], ids) && SymptomList(row, columns[..i], ids).Raised?
    ensures SymptomList(row, columns, ids).Raised?
    decreases |columns| - i
  {
    if i < |columns| {
      var next := columns[..i + 1];
      assert next[..i] == columns[..i];
      assert Mapped(next, ids);
      assert SymptomList(row, next, ids).Raised?;
      SymptomListRaisedPrefix(row, columns, ids, i + 1);
    } else {
      assert columns[..i] == columns;
    }
  }

  /** The body of make_notification's loop for one column: append its entry if it reads as yes, then patch the fever entry's onset. */
  method AppendSymptom(row: seq<Value>, symptoms: seq<Symptom>, col: int, ids: map<int, Value>)
    returns (r: Outcome<seq<Symptom>>)
    requires col in ids
    ensures r == AddSymptom(row, symptoms, col, ids)
  {
    var yes := Resolve(row, Apply(IsYesFn, Column(col), []));
    if yes.Raised? {
      return Raised;
    }
    var grown := symptoms;
    if Truthy(yes.value) {
      grown := grown + [Symptom(ids[col], None)];
      if col == FeverColumn {
        var onset := Cell(row, FeverOnsetColumn);
        if onset.Raised? {
          return Raised;
        }
        if Truthy(onset.value) {
          grown := grown[|grown| - 1 := Symptom(ids[col], Some(onset.value))];
          assert grown == symptoms + [Symptom(ids[col], Some(onset.value))];
        }
      }
    }
    r := Returned(grown);
  }

  /** The loop of make_notification over the symptom columns; the first exception ends it. */
  method BuildSymptoms(row: seq<Value>, columns: seq<int>, ids: map<int, Value>)
    returns (r: Outcome<seq<Symptom>>)
    requires Mapped(columns, ids) && EachKeyOnce(columns, ids)
    ensures r == SymptomList(row, columns, ids)
  {
    var symptoms: seq<Symptom> := [];
    var i := 0;
    assert columns[..0] == [];
    while i < |columns|
      invariant 0 <= i <= |columns|
      invariant Mapped(columns[..i], ids)
      invariant SymptomList(row, columns[..i], ids) == Returned(symptoms)
    {
      SymptomListSnoc(row, columns, ids, i);
      var next := AppendSymptom(row, symptoms, columns[i], ids);
      if next.Raised? {
        SymptomListRaisedPrefix(row, columns, ids, i + 1);
        return Raised;
      }
      symptoms := next.value;
      i := i + 1;
    }
    assert columns[..i] == columns;
    r := Returned(symptoms);
  }

  /** The notification dict: the resolved fields plus patient, optional specimen create and symptom creates. */
  datatype Notification = Notification(
    fields: map<string, Value>,
    patient: Value,
    specimen: Option<map<string, Value>>,
    symptoms: seq<Symptom>)

  /** `notification.get('specimen_taken', False)`, as a truth value. */
  predicate SpecimenTaken(fields: map<string, Value>)
  {
    "specimen_taken" in fields && Truthy(fields["specimen_taken"])
  }

  /**
   * What make_notification returns: None for the empty dict it gives back when
   * no notification field resolves, otherwise the assembled notification.
   */
  function NotificationOf(row: seq<Value>, notificationSpecs: map<string, Spec>, specimenSpecs: map<string, Spec>,
                          columns: seq<int>, ids: map<int, Value>, patient: Value): Outcome<Option<Notification>>
    requires Mapped(columns, ids)
  {
    var fields := ObjectOf(row, notificationSpecs, map[]);
    if fields == map[] then Returned(None)
    else
      var specimen := if SpecimenTaken(fields) then Some(ObjectOf(row, specimenSpecs, map[])) else None;
      match SymptomList(row, columns, ids)
      case Raised => Raised
      case Returned(s) => Returned(Some(Notification(fields, patient, specimen, s)))
  }

  /** `make_notification(row, patient)`, over the given spec maps and symptom columns. */
  method MakeNotification(row: seq<Value>, notificationSpecs: map<string, Spec>, specimenSpecs: map<string, Spec>,
                          columns: seq<int>, ids: map<int, Value>, patient: Value)
    returns (r: Outcome<Option<Notification>>)
    requires Mapped(columns, ids) && EachKeyOnce(columns, ids)
    ensures r == NotificationOf(row, notificationSpecs, specimenSpecs, columns, ids, patient)
  {
    var fields := MakeObject(row, notificationSpecs, map[]);
    if fields == map[] {
      return Returned(None);
    }
    var specimen: Option<map<string, Value>> := None;
    if "specimen_taken" in fields && Truthy(fields["specimen_taken"]) {
      var s := MakeObject(row, specimenSpecs, map[]);
      specimen := Some(s);
    }
    var symptoms := BuildSymptoms(row, columns, ids);
    if symptoms.Raised? {
      return Raised;
    }
    r := Returned(Some(Notification(fields, patient, specimen, symptoms.value)));
  }

  /**
   * A notification carries a specimen create exactly when its resolved
   * `specimen_taken` is truthy; with `COLMAP`'s spec `(isbool_true, 59)` that
   * is the truthiness of cell 59.
   */
  lemma SpecimenOnlyWhenTaken(row: seq<Value>, notificationSpecs: map<string, Spec>, specimenSpecs: map<string, Spec>,
                              columns: seq<int>, ids: map<int, Value>, patient: Value)
    requires Mapped(columns, ids)
    requires "specimen_taken" in notificationSpecs
    requires notificationSpecs["specimen_taken"] == Apply(IsBoolTrueFn, Column(59), [])
    requires 59 <= |row|
    requires NotificationOf(row, notificationSpecs, specimenSpecs, columns, ids, patient).Returned?
    ensures var n := NotificationOf(row, notificationSpecs, specimenSpecs, columns, ids, patient).value;
            n.Some? && (n.value.specimen.Some? <==> Truthy(row[58])) &&
            (n.value.specimen.Some? ==> n.value.specimen.value == ObjectOf(row, specimenSpecs, map[]))
  {
    var fields := ObjectOf(row, notificationSpecs, map[]);
    assert Resolves(row, notificationSpecs, "specimen_taken");
    assert fields["specimen_taken"] == Bool(Truthy(row[58]));
  }
}
