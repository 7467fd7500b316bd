// Run-time values, the errors of a run, and the small text helpers: parsing
// a `bool` literal, printing a value, and formatting a list.
//
// The source keeps values as untyped host objects (`dynamic`): a double, a
// bool, a string, a list of values, or null. Numbers are abstracted as
// unbounded integers here.
module Values {
  import opened Wrappers

  datatype Value = Num(n: int) | Bool(b: bool) | Str(s: string) | Arr(items: seq<Value>) | Null

  /** The exceptions a run can raise, each a thrown exception of the source
      made an explicit result. `OutOfFuel` is the model's own: evaluation is
      given a bound on calls and loop iterations, see `Evaluation`. */
  datatype RuntimeError =
    | KeyNotFound(key: string)        // reading a name the top frame lacks
    | EmptyStack                      // `Top`/`Pop` on an empty call stack
    | NullReference                   // `.Value` of a visit that yielded null
    | InvalidCast                     // a value of the wrong kind for an operator or a cast
    | IndexOutOfRange                 // a list index outside the list
    | DivideByZero                    // integer stand-in for a double division by zero
    | NoVisitMethod                   // a node kind the evaluator has no visit for
    | InvalidNode                     // an assignment target or operator it does not handle
    | MissingBuiltin(name: string)    // a builtin function other than `print`
    | Format(text: string)              // a literal the runtime cannot parse
    | OutOfFuel

  // ---------------------------------------------------------------------
  // ASCII text helpers

  predicate IsUpper(c: char) {
    'A' <= c <= 'Z'
  }

  function LowerChar(c: char): char {
    if IsUpper(c) then (c as int - 'A' as int + 'a' as int) as char else c
  }

  function ToLower(s: string): (r: string)
    ensures |r| == |s| && forall i :: 0 <= i < |s| ==> r[i] == LowerChar(s[i])
  {
    if s == [] then [] else [LowerChar(s[0])] + ToLower(s[1..])
  }

  /** What the runtime trims around a `bool` text: white space and NUL. */
  predicate IsTrimmed(c: char) {
    c == ' ' || ('\t' <= c <= '\r') || c == '\0'
  }

  function TrimStart(s: string): (r: string)
    ensures |r| <= |s| && (r != [] ==> !IsTrimmed(r[0]))
    ensures r == s[|s| - |r|..]
  {
    if s != [] && IsTrimmed(s[0]) then TrimStart(s[1..]) else s
  }

  function TrimEnd(s: string): (r: string)
    ensures |r| <= |s| && (r != [] ==> !IsTrimmed(r[|r| - 1]))
    ensures r == s[..|r|]
  {
    if s != [] && IsTrimmed(s[|s| - 1]) then TrimEnd(s[..|s| - 1]) else s
  }

  function Trim(s: string): string {
    TrimEnd(TrimStart(s))
  }

  // ---------------------------------------------------------------------
  // ToBool

  datatype FormatException = FormatException(text: string)

  function BoolName(b: bool): string {
    if b then "true" else "false"
  }

  /** A text that lower-casing would change is rejected outright; otherwise
      the runtime's parse applies: surrounding white space is ignored and
      the rest must spell `true` or `false` (it ignores case, but no upper
      case letter is left by then). */
  function ToBool(s: string): (r: Result<bool, FormatException>)
    ensures r.Failure? ==> r.error == FormatException(s)
    ensures r.Success? ==> ToLower(s) == s && Trim(s) == BoolName(r.value)
  {
    if ToLower(s) != s then Failure(FormatException(s))
    else if Trim(s) == "true" then Success(true)
    else if Trim(s) == "false" then Success(false)
    else Failure(FormatException(s))
  }

  /** Lower-casing changes a text exactly when it holds an upper case
      letter. */
  lemma LowerChangesUpper(s: string)
    ensures ToLower(s) == s <==> forall i :: 0 <= i < |s| ==> !IsUpper(s[i])
  {
    if forall i :: 0 <= i < |s| ==> !IsUpper(s[i]) {
      assert forall i :: 0 <= i < |s| ==> ToLower(s)[i] == s[i];
    } else {
      var i :| 0 <= i < |s| && IsUpper(s[i]);
      assert ToLower(s)[i] != s[i];
    }
  }

  /** A text that starts and ends with something other than white space is
      its own trimmed form. */
  lemma TrimNothing(s: string)
    requires |s| > 0 && !IsTrimmed(s[0]) && !IsTrimmed(s[|s| - 1])
    ensures Trim(s) == s
  {
    assert TrimStart(s) == s;
  }

  lemma ToBoolRoundTrip(b: bool)
    ensures ToBool(BoolName(b)) == Success(b)
  {
    var s := BoolName(b);
    LowerChangesUpper(s);
    TrimNothing(s);
  }

  /** Any upper case letter makes the text a format error: `True`, `FALSE`. */
  lemma ToBoolRejectsUpperCase(s: string, i: nat)
    requires i < |s| && IsUpper(s[i])
    ensures ToBool(s) == Failure(FormatException(s))
  {
    LowerChangesUpper(s);
  }

  /** Blank text trims to nothing. */
  lemma TrimBlank(s: string)
    requires forall i :: 0 <= i < |s| ==> IsTrimmed(s[i])
    ensures Trim(s) == ""
  {
    assert TrimStart(s) == [];
  }

  /** A text of one character other than white space trims to itself and
      is neither name. */
  lemma OneCharacterIsNoName(c: char)
    requires !IsTrimmed(c) && !IsUpper(c)
    ensures ToBool([c]).Failure?
  {
    LowerChangesUpper([c]);
    TrimNothing([c]);
  }

  lemma ToBoolRejectsCapitalised()
    ensures ToBool("True").Failure? && ToBool("FALSE").Failure?
  {
    ToBoolRejectsUpperCase("True", 0);
    ToBoolRejectsUpperCase("FALSE", 0);
  }

  /** Empty, blank and non-boolean texts are rejected too. */
  lemma ToBoolRejectsOthers()
    ensures ToBool("").Failure? && ToBool("   ").Failure?
    ensures ToBool("a").Failure? && ToBool("@").Failure?
  {
    TrimBlank("");
    TrimBlank("   ");
    OneCharacterIsNoName('a');
    OneCharacterIsNoName('@');
  }

  // ---------------------------------------------------------------------
  // Printing values and lists

  /** Decimal digits of a natural number. */
  function NatText(n: nat): (r: string)
    ensures |r| > 0 && forall i :: 0 <= i < |r| ==> '0' <= r[i] <= '9'
    decreases n
  {
    var d := ['0' + (n % 10) as char];
    if n < 10 then d else NatText(n / 10) + d
  }

  function IntText(n: int): string {
    if n < 0 then "-" + NatText(-n) else NatText(n)
  }

  /** The text interpolation gives a value: numbers in decimal, booleans as
      the runtime names them, strings as they are, null as nothing, and a
      list as the name of its host type. */
  function ValueText(v: Value): string {
    match v
    case Num(n) => IntText(n)
    case Bool(b) => if b then "True" else "False"
    case Str(s) => s
    case Null => ""
    case Arr(_) => "System.Collections.Generic.List`1[System.Object]"
  }

  /** The item texts with `sep` between neighbours. */
  function Join(items: seq<string>, sep: string): string {
    if items == [] then ""
    else if |items| == 1 then items[0]
    else Join(items[..|items| - 1], sep) + sep + items[|items| - 1]
  }

  /** `ToPrint`: the item texts joined by `", "` inside brackets. */
  function ToPrint(items: seq<string>): (r: string)
    ensures |r| >= 2 && r[0] == '[' && r[|r| - 1] == ']'
  {
    "[" + Join(items, ", ") + "]"
  }

  function TotalLength(items: seq<string>): nat {
    if items == [] then 0 else TotalLength(items[..|items| - 1]) + |items[|items| - 1]|
  }

  /** The items appear in order with exactly one separator between
      neighbours: n items give n - 1 separators. */
  lemma {:induction false} JoinLength(items: seq<string>, sep: string)
    requires |items| > 0
    ensures |Join(items, sep)| == TotalLength(items) + (|items| - 1) * |sep|
  {
    if |items| > 1 {
      JoinLength(items[..|items| - 1], sep);
      assert TotalLength(items[..|items| - 1]) == TotalLength(items[..|items| - 1][..|items| - 2]) + |items[|items| - 2]| by {
        assert items[..|items| - 1][|items| - 2] == items[|items| - 2];
      }
    } else {
      assert items[..0] == [];
    }
  }

  /** One more item adds a separator and the item at the end. */
  lemma JoinAppend(items: seq<string>, item: string, sep: string)
    requires |items| > 0
    ensures Join(items + [item], sep) == Join(items, sep) + sep + item
  {
    assert (items + [item])[..|items|] == items;
  }

  /** Joining two non-empty runs of items is joining each and putting one
      separator between them. */
  lemma {:induction false} JoinConcat(a: seq<string>, b: seq<string>, sep: string)
    requires |a| > 0 && |b| > 0
    ensures Join(a + b, sep) == Join(a, sep) + sep + Join(b, sep)
    decreases |b|
  {
    var last := b[|b| - 1];
    if |b| == 1 {
      assert b == [last];
      JoinAppend(a, last, sep);
    } else {
      var front := b[..|b| - 1];
      assert b == front + [last];
      assert a + b == (a + front) + [last];
      JoinAppend(a + front, last, sep);
      JoinConcat(a, front, sep);
      JoinAppend(front, last, sep);
    }
  }

  /** Each item appears whole at its place: the text is the join of the
      items before it, a separator, the item, a separator and the join of
      the items after it (without the separators at the two ends). */
  lemma ItemInJoin(items: seq<string>, k: nat, sep: string)
    requires k < |items|
    ensures 0 < k < |items| - 1 ==>
              Join(items, sep) == Join(items[..k], sep) + sep + items[k] + sep + Join(items[k + 1..], sep)
    ensures 0 == k < |items| - 1 ==> Join(items, sep) == items[0] + sep + Join(items[1..], sep)
    ensures 0 < k == |items| - 1 ==> Join(items, sep) == Join(items[..k], sep) + sep + items[k]
    ensures |items| == 1 ==> Join(items, sep) == items[0]
  {
    var before, after := items[..k], items[k + 1..];
    assert items == before + [items[k]] + after;
    if 0 < k && k < |items| - 1 {
      JoinConcat(before + [items[k]], after, sep);
      JoinAppend(before, items[k], sep);
    } else if 0 == k && k < |items| - 1 {
      assert items == [items[0]] + after;
      JoinConcat([items[0]], after, sep);
    } else if 0 < k {
      assert items == before + [items[k]];
      JoinAppend(before, items[k], sep);
    }
  }

  /** A list of one item prints as the item in brackets; a longer list
      prints as its first item, `", "` and the rest, in brackets. */
  lemma ToPrintContents(items: seq<string>)
    requires |items| > 0
    ensures |items| == 1 ==> ToPrint(items) == "[" + items[0] + "]"
    ensures |items| > 1 ==> ToPrint(items) == "[" + items[0] + ", " + Join(items[1..], ", ") + "]"
  {
    ItemInJoin(items, 0, ", ");
  }

  lemma ToPrintEmpty()
    ensures ToPrint([]) == "[]"
  {
  }

  /** The list 1, 2, 3 prints as `[1, 2, 3]`. */
  lemma ToPrintOneTwoThree()
    ensures ToPrint([ValueText(Num(1)), ValueText(Num(2)), ValueText(Num(3))]) == "[1, 2, 3]"
  {
    var items := ["1", "2", "3"];
    assert ValueText(Num(1)) == "1" && ValueText(Num(2)) == "2" && ValueText(Num(3)) == "3";
    JoinAppend(["1"], "2", ", ");
    JoinAppend(["1", "2"], "3", ", ");
    assert ["1"] + ["2"] == ["1", "2"];
    assert ["1", "2"] + ["3"] == items;
  }
}
