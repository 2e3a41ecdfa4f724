/** Finding texts in a decoded message: by a path of field numbers, or all of them at any
    depth. */
module WireTexts {
  import opened Common
  import opened WireFormat

  type Text = seq<Byte>

  /** What counts as text, which texts are blank, and how long one is in UTF-16 units. */
  datatype Rules = Rules(isText: Text -> bool, isBlank: Text -> bool, width: Text -> nat)

  // ---------------------------------------------------------------------
  // By path
  // ---------------------------------------------------------------------

  /** The first length-delimited field of that number. */
  function FirstContent(fields: seq<Field>, number: nat): Option<Text> {
    if fields == [] then None
    else if fields[0].Content? && fields[0].number == number then Some(fields[0].bytes)
    else FirstContent(fields[1..], number)
  }

  function TextAt(fields: seq<Field>, path: seq<nat>, isText: Text -> bool): Option<Text>
    decreases |path|
  {
    if path == [] then None
    else match FirstContent(fields, path[0])
      case None => None
      case Some(bytes) =>
        if |path| == 1 then (if isText(bytes) then Some(bytes) else None)
        else TextAt(FieldsOf(Fields(bytes)), path[1..], isText)
  }

  method FindContent(fields: seq<Parsed>, number: nat) returns (found: Option<Text>)
    ensures found == FirstContent(FieldsOf(fields), number)
  {
    for i := 0 to |fields|
      invariant FirstContent(FieldsOf(fields), number) == FirstContent(FieldsOf(fields[i..]), number)
    {
      assert fields[i..][0] == fields[i] && fields[i..][1..] == fields[i + 1..];
      if fields[i].field.Content? && fields[i].field.number == number {
        return Some(fields[i].field.bytes);
      }
    }
    found := None;
  }

  method TextAtPath(fields: seq<Parsed>, path: seq<nat>, isText: Text -> bool) returns (text: Option<Text>)
    ensures text == TextAt(FieldsOf(fields), path, isText)
  {
    var current := fields;
    for i := 0 to |path|
      invariant TextAt(FieldsOf(fields), path, isText) == TextAt(FieldsOf(current), path[i..], isText)
    {
      assert path[i..][0] == path[i] && path[i..][1..] == path[i + 1..];
      var found := FindContent(current, path[i]);
      if found.None? {
        return None;
      }
      if i == |path| - 1 {
        return if isText(found.value) then found else None;
      }
      current := ParseFields(found.value);
    }
    text := None;
  }

  /** A text wrapped in one message per path element, each with other fields around it. */
  datatype Around = Around(before: seq<Wire>, after: seq<Wire>)

  function Wrapped(text: Text, path: seq<nat>, around: seq<Around>): Text
    requires |around| == |path|
  {
    if path == [] then text
    else Encode(around[0].before + [SendContent(path[0], Wrapped(text, path[1..], around[1..]))] + around[0].after)
  }

  predicate Wrappable(text: Text, path: seq<nat>, around: seq<Around>)
    requires |around| == |path|
  {
    path == [] || (
      var inner := SendContent(path[0], Wrapped(text, path[1..], around[1..]));
      && AllLegal(around[0].before + [inner] + around[0].after)
      && (forall k | 0 <= k < |around[0].before| :: around[0].before[k].SendContent? ==> around[0].before[k].number != path[0])
      && Wrappable(text, path[1..], around[1..]))
  }

  lemma {:induction false} FirstContentAfter(before: seq<Wire>, number: nat, content: Text, after: seq<Wire>)
    requires forall k | 0 <= k < |before| :: before[k].SendContent? ==> before[k].number != number
    ensures FirstContent(AllErased(before + [SendContent(number, content)] + after), number) == Some(content)
  {
    var all := before + [SendContent(number, content)] + after;
    if before != [] {
      assert all[1..] == before[1..] + [SendContent(number, content)] + after;
      FirstContentAfter(before[1..], number, content, after);
    }
  }

  /** The path finds the text it was wrapped along, whatever legal fields surround it, as
      long as none before it on the way has the same number. */
  lemma {:induction false} PathFindsWrapped(text: Text, path: seq<nat>, around: seq<Around>, isText: Text -> bool)
    requires path != [] && |around| == |path| && Wrappable(text, path, around) && isText(text)
    ensures TextAt(FieldsOf(Fields(Wrapped(text, path, around))), path, isText) == Some(text)
    decreases |path|
  {
    var content := Wrapped(text, path[1..], around[1..]);
    MessageRoundTrip(around[0].before + [SendContent(path[0], content)] + around[0].after);
    FirstContentAfter(around[0].before, path[0], content, around[0].after);
    if |path| > 1 {
      PathFindsWrapped(text, path[1..], around[1..], isText);
    }
  }

  // ---------------------------------------------------------------------
  // At any depth
  // ---------------------------------------------------------------------

  /** Every non-blank text of the value, before those of its nested fields in their order. */
  function TextsIn(value: Text, rules: Rules): seq<Text>
    decreases |value|, 1, 0
  {
    (if rules.isText(value) && !rules.isBlank(value) then [value] else []) + NestedTexts(value, |Fields(value)|, rules)
  }

  function NestedTexts(value: Text, n: nat, rules: Rules): seq<Text>
    requires n <= |Fields(value)|
    decreases |value|, 0, n
  {
    if n == 0 then [] else
      var field := Fields(value)[n - 1].field;
      if field.Content? then
        NestedIsShorter(value, n - 1);
        NestedTexts(value, n - 1, rules) + TextsIn(field.bytes, rules)
      else NestedTexts(value, n - 1, rules)
  }

  function AllTexts(values: seq<Text>, n: nat, rules: Rules): seq<Text>
    requires n <= |values|
  {
    if n == 0 then [] else AllTexts(values, n - 1, rules) + TextsIn(values[n - 1], rules)
  }

  function Total(values: seq<Text>): nat {
    if values == [] then 0 else |values[0]| + Total(values[1..])
  }

  lemma {:induction false} PartOfTotal(values: seq<Text>, i: nat)
    requires i < |values|
    ensures |values[i]| <= Total(values)
  {
    if i > 0 {
      PartOfTotal(values[1..], i - 1);
    }
  }

  predicate LongestFirst(texts: seq<Text>, rules: Rules) {
    forall i, j | 0 <= i < j < |texts| :: rules.width(texts[i]) >= rules.width(texts[j])
  }

  predicate NoneBlank(texts: seq<Text>, rules: Rules) {
    forall i | 0 <= i < |texts| :: !rules.isBlank(texts[i])
  }

  /** The non-blank texts of one width, in order. */
  function OfWidth(texts: seq<Text>, w: nat, rules: Rules): seq<Text> {
    if texts == [] then [] else
      var last := texts[|texts| - 1];
      OfWidth(texts[..|texts| - 1], w, rules) + (if rules.width(last) == w && !rules.isBlank(last) then [last] else [])
  }

  /** The same texts with the same multiplicity, and equally long ones in the same order;
      blank ones do not count. */
  ghost predicate SameTexts(a: seq<Text>, b: seq<Text>, rules: Rules) {
    forall w: nat :: OfWidth(a, w, rules) == OfWidth(b, w, rules)
  }

  lemma {:induction false} OfWidthJoin(a: seq<Text>, b: seq<Text>, w: nat, rules: Rules)
    ensures OfWidth(a + b, w, rules) == OfWidth(a, w, rules) + OfWidth(b, w, rules)
    decreases |b|
  {
    if b == [] {
      assert a + b == a;
    } else {
      assert (a + b)[..|a + b| - 1] == a + b[..|b| - 1];
      OfWidthJoin(a, b[..|b| - 1], w, rules);
    }
  }

  lemma SameJoin(a: seq<Text>, b: seq<Text>, c: seq<Text>, d: seq<Text>, rules: Rules)
    requires SameTexts(a, b, rules) && SameTexts(c, d, rules)
    ensures SameTexts(a + c, b + d, rules)
  {
    forall w: nat ensures OfWidth(a + c, w, rules) == OfWidth(b + d, w, rules) {
      OfWidthJoin(a, c, w, rules);
      OfWidthJoin(b, d, w, rules);
    }
  }

  lemma {:induction false} NoneOfWidth(texts: seq<Text>, w: nat, rules: Rules)
    requires forall i | 0 <= i < |texts| :: rules.width(texts[i]) != w
    ensures OfWidth(texts, w, rules) == []
  {
    if texts != [] {
      NoneOfWidth(texts[..|texts| - 1], w, rules);
    }
  }

  lemma OneText(text: Text, w: nat, rules: Rules)
    ensures OfWidth([text], w, rules) == if rules.width(text) == w && !rules.isBlank(text) then [text] else []
  {
    assert [text][..0] == [];
  }

  // ---------------------------------------------------------------------
  // The order pins the list
  // ---------------------------------------------------------------------

  lemma HeadOfWidth(texts: seq<Text>, rules: Rules)
    requires texts != [] && NoneBlank(texts, rules)
    ensures var w := rules.width(texts[0]); OfWidth(texts, w, rules) == [texts[0]] + OfWidth(texts[1..], w, rules)
    ensures forall w: nat | w != rules.width(texts[0]) :: OfWidth(texts, w, rules) == OfWidth(texts[1..], w, rules)
  {
    assert texts == [texts[0]] + texts[1..];
    forall w: nat ensures OfWidth(texts, w, rules) == OfWidth([texts[0]], w, rules) + OfWidth(texts[1..], w, rules) {
      OfWidthJoin([texts[0]], texts[1..], w, rules);
    }
    forall w: nat ensures OfWidth([texts[0]], w, rules) == if rules.width(texts[0]) == w then [texts[0]] else [] {
      OneText(texts[0], w, rules);
    }
  }

  lemma WidestFirst(a: seq<Text>, b: seq<Text>, rules: Rules)
    requires a != [] && NoneBlank(a, rules) && LongestFirst(b, rules) && SameTexts(a, b, rules)
    ensures b != [] && rules.width(b[0]) >= rules.width(a[0])
  {
    var w := rules.width(a[0]);
    HeadOfWidth(a, rules);
    assert OfWidth(b, w, rules) == OfWidth(a, w, rules) != [];
    if b == [] || rules.width(b[0]) < w {
      NoneOfWidth(b, w, rules);
    }
  }

  /** Two lists of the same texts, both longest first and without blanks, are equal. */
  lemma {:induction false} OrderIsUnique(a: seq<Text>, b: seq<Text>, rules: Rules)
    requires SameTexts(a, b, rules) && LongestFirst(a, rules) && LongestFirst(b, rules) && NoneBlank(a, rules) && NoneBlank(b, rules)
    ensures a == b
  {
    if a != [] {
      WidestFirst(a, b, rules);
      WidestFirst(b, a, rules);
      HeadOfWidth(a, rules);
      HeadOfWidth(b, rules);
      var w := rules.width(a[0]);
      assert ([a[0]] + OfWidth(a[1..], w, rules))[0] == ([b[0]] + OfWidth(b[1..], w, rules))[0];
      assert ([a[0]] + OfWidth(a[1..], w, rules))[1..] == OfWidth(a[1..], w, rules);
      assert ([b[0]] + OfWidth(b[1..], w, rules))[1..] == OfWidth(b[1..], w, rules);
      OrderIsUnique(a[1..], b[1..], rules);
      assert a == [a[0]] + a[1..] && b == [b[0]] + b[1..];
    } else if b != [] {
      WidestFirst(b, a, rules);
    }
  }

  // ---------------------------------------------------------------------
  // Collecting and sorting
  // ---------------------------------------------------------------------

  /** Puts a text behind every text that is at least as long. */
  method InsertByLength(sorted: seq<Text>, text: Text, rules: Rules) returns (longer: seq<Text>)
    requires LongestFirst(sorted, rules) && NoneBlank(sorted, rules) && !rules.isBlank(text)
    ensures LongestFirst(longer, rules) && NoneBlank(longer, rules) && SameTexts(longer, sorted + [text], rules)
  {
    var at := |sorted|;
    while at > 0 && rules.width(sorted[at - 1]) < rules.width(text)
      invariant 0 <= at <= |sorted|
      invariant forall k | at <= k < |sorted| :: rules.width(sorted[k]) < rules.width(text)
    {
      at := at - 1;
    }
    forall k | 0 <= k < at ensures rules.width(sorted[k]) >= rules.width(text) {
      assert k == at - 1 || rules.width(sorted[k]) >= rules.width(sorted[at - 1]);
    }
    Inserted(sorted, at, text, rules);
    InsertedBehind(sorted, at, text, rules);
    longer := sorted[..at] + [text] + sorted[at..];
  }

  lemma Inserted(sorted: seq<Text>, at: nat, text: Text, rules: Rules)
    requires LongestFirst(sorted, rules) && at <= |sorted|
    requires forall k | 0 <= k < at :: rules.width(sorted[k]) >= rules.width(text)
    requires forall k | at <= k < |sorted| :: rules.width(sorted[k]) < rules.width(text)
    ensures LongestFirst(sorted[..at] + [text] + sorted[at..], rules)
  {
    var longer := sorted[..at] + [text] + sorted[at..];
    forall i, j | 0 <= i < j < |longer| ensures rules.width(longer[i]) >= rules.width(longer[j]) {
      InsertedPair(sorted, at, text, rules, i, j);
    }
  }

  lemma InsertedBehind(sorted: seq<Text>, at: nat, text: Text, rules: Rules)
    requires at <= |sorted| && !rules.isBlank(text)
    requires forall k | at <= k < |sorted| :: rules.width(sorted[k]) < rules.width(text)
    ensures SameTexts(sorted[..at] + [text] + sorted[at..], sorted + [text], rules)
  {
    forall w: nat ensures OfWidth(sorted[..at] + [text] + sorted[at..], w, rules) == OfWidth(sorted + [text], w, rules) {
      assert sorted == sorted[..at] + sorted[at..];
      OfWidthJoin(sorted[..at] + [text], sorted[at..], w, rules);
      OfWidthJoin(sorted[..at], [text], w, rules);
      OfWidthJoin(sorted, [text], w, rules);
      OfWidthJoin(sorted[..at], sorted[at..], w, rules);
      OneText(text, w, rules);
      if w == rules.width(text) {
        NoneOfWidth(sorted[at..], w, rules);
      }
    }
  }

  lemma InsertedPair(sorted: seq<Text>, at: nat, text: Text, rules: Rules, i: nat, j: nat)
    requires LongestFirst(sorted, rules) && at <= |sorted| && i < j <= |sorted|
    requires forall k | 0 <= k < at :: rules.width(sorted[k]) >= rules.width(text)
    requires forall k | at <= k < |sorted| :: rules.width(sorted[k]) < rules.width(text)
    ensures rules.width((sorted[..at] + [text] + sorted[at..])[i]) >= rules.width((sorted[..at] + [text] + sorted[at..])[j])
  {
    if j < at {
      assert rules.width(sorted[i]) >= rules.width(sorted[j]);
    } else if i > at {
      assert rules.width(sorted[i - 1]) >= rules.width(sorted[j - 1]);
    }
  }

  /** sort.SliceStable by falling width. */
  method SortLongestFirst(texts: seq<Text>, rules: Rules) returns (sorted: seq<Text>)
    requires NoneBlank(texts, rules)
    ensures SameTexts(sorted, texts, rules) && LongestFirst(sorted, rules) && NoneBlank(sorted, rules)
  {
    sorted := [];
    for i := 0 to |texts|
      invariant SameTexts(sorted, texts[..i], rules) && LongestFirst(sorted, rules) && NoneBlank(sorted, rules)
    {
      assert texts[..i + 1] == texts[..i] + [texts[i]];
      SameJoin(sorted, texts[..i], [texts[i]], [texts[i]], rules);
      sorted := InsertByLength(sorted, texts[i], rules);
    }
    assert texts[..|texts|] == texts;
  }

  method DropBlank(texts: seq<Text>, rules: Rules) returns (kept: seq<Text>)
    ensures SameTexts(kept, texts, rules) && NoneBlank(kept, rules)
  {
    kept := [];
    for i := 0 to |texts|
      invariant SameTexts(kept, texts[..i], rules) && NoneBlank(kept, rules)
    {
      assert texts[..i + 1] == texts[..i] + [texts[i]];
      var one := if rules.isBlank(texts[i]) then [] else [texts[i]];
      SameOne(texts[i], one, rules);
      SameJoin(kept, texts[..i], one, [texts[i]], rules);
      kept := kept + one;
    }
    assert texts[..|texts|] == texts;
  }

  lemma SameOne(text: Text, one: seq<Text>, rules: Rules)
    requires one == if rules.isBlank(text) then [] else [text]
    ensures SameTexts(one, [text], rules)
  {
    forall w: nat ensures OfWidth(one, w, rules) == OfWidth([text], w, rules) {
      OneText(text, w, rules);
    }
  }

  /** stringsIn: every non-blank text at any depth, longest first, and equally long ones in
      the order of the message, which by OrderIsUnique leaves one list. It terminates because
      a nested payload is strictly shorter than the value that holds it. */
  method StringsIn(values: seq<Text>, rules: Rules) returns (kept: seq<Text>)
    ensures SameTexts(kept, AllTexts(values, |values|, rules), rules)
    ensures LongestFirst(kept, rules) && NoneBlank(kept, rules)
    decreases Total(values), 2
  {
    var result: seq<Text> := [];
    for i := 0 to |values|
      invariant SameTexts(result, AllTexts(values, i, rules), rules)
    {
      PartOfTotal(values, i);
      var found := StringsOf(values[i], rules);
      SameJoin(result, AllTexts(values, i, rules), found, TextsIn(values[i], rules), rules);
      result := result + found;
    }
    kept := DropBlank(result, rules);
    kept := SortLongestFirst(kept, rules);
  }

  function OwnText(value: Text, rules: Rules): seq<Text> {
    if rules.isText(value) && !rules.isBlank(value) then [value] else []
  }

  function FieldTexts(value: Text, k: nat, rules: Rules): seq<Text>
    requires k < |Fields(value)|
  {
    if Fields(value)[k].field.Content? then TextsIn(Fields(value)[k].field.bytes, rules) else []
  }

  lemma OneMoreField(value: Text, k: nat, rules: Rules)
    requires k < |Fields(value)|
    ensures NestedTexts(value, k + 1, rules) == NestedTexts(value, k, rules) + FieldTexts(value, k, rules)
  {
  }

  lemma OwnIsSame(value: Text, result: seq<Text>, rules: Rules)
    requires result == if rules.isText(value) then [value] else []
    ensures SameTexts(result, OwnText(value, rules) + NestedTexts(value, 0, rules), rules)
  {
    assert OwnText(value, rules) + NestedTexts(value, 0, rules) == OwnText(value, rules);
    if rules.isText(value) {
      SameOne(value, OwnText(value, rules), rules);
    }
  }

  lemma FieldIsAppended(value: Text, k: nat, result: seq<Text>, nested: seq<Text>, rules: Rules)
    requires k < |Fields(value)|
    requires SameTexts(result, OwnText(value, rules) + NestedTexts(value, k, rules), rules) && SameTexts(nested, FieldTexts(value, k, rules), rules)
    ensures SameTexts(result + nested, OwnText(value, rules) + NestedTexts(value, k + 1, rules), rules)
  {
    OneMoreField(value, k, rules);
    var own, before, part := OwnText(value, rules), NestedTexts(value, k, rules), FieldTexts(value, k, rules);
    SameJoin(result, own + before, nested, part, rules);
    assert own + before + part == own + (before + part);
  }

  /** One value: itself, then what its nested fields hold. */
  method StringsOf(value: Text, rules: Rules) returns (result: seq<Text>)
    ensures SameTexts(result, TextsIn(value, rules), rules)
    decreases |value|, 1
  {
    result := if rules.isText(value) then [value] else [];
    OwnIsSame(value, result, rules);
    var fields := ParseFields(value);
    for k := 0 to |fields|
      invariant SameTexts(result, OwnText(value, rules) + NestedTexts(value, k, rules), rules)
    {
      var nested := StringsOfField(value, fields, k, rules);
      FieldIsAppended(value, k, result, nested, rules);
      result := result + nested;
    }
  }

  method StringsOfField(value: Text, fields: seq<Parsed>, k: nat, rules: Rules) returns (nested: seq<Text>)
    requires fields == Fields(value) && k < |fields|
    ensures SameTexts(nested, FieldTexts(value, k, rules), rules)
    decreases |value|, 0
  {
    nested := [];
    if fields[k].field.Content? {
      var bytes := fields[k].field.bytes;
      NestedIsShorter(value, k);
      assert Total([bytes]) == |bytes|;
      nested := StringsIn([bytes], rules);
      OnlyValue(bytes, rules);
    }
  }

  lemma OnlyValue(value: Text, rules: Rules)
    ensures AllTexts([value], 1, rules) == TextsIn(value, rules)
  {
    assert AllTexts([value], 0, rules) == [];
  }

  // ---------------------------------------------------------------------
  // Nested texts are found
  // ---------------------------------------------------------------------

  lemma {:induction false} FieldTextsAreNested(value: Text, n: nat, k: nat, rules: Rules, text: Text)
    requires k < n <= |Fields(value)| && Fields(value)[k].field.Content? && text in TextsIn(Fields(value)[k].field.bytes, rules)
    ensures text in NestedTexts(value, n, rules)
    decreases n
  {
    if k < n - 1 {
      FieldTextsAreNested(value, n - 1, k, rules, text);
    }
  }

  lemma {:induction false} FirstContentIsField(fields: seq<Parsed>, number: nat) returns (k: nat)
    requires FirstContent(FieldsOf(fields), number).Some?
    ensures k < |fields| && fields[k].field.Content? && Some(fields[k].field.bytes) == FirstContent(FieldsOf(fields), number)
  {
    if fields[0].field.Content? && fields[0].field.number == number {
      k := 0;
    } else {
      assert FieldsOf(fields)[1..] == FieldsOf(fields[1..]);
      k := FirstContentIsField(fields[1..], number);
      k := k + 1;
    }
  }

  /** Whatever text a path finds is among the texts at any depth. */
  lemma {:induction false} PathIsAmongTexts(value: Text, path: seq<nat>, rules: Rules)
    requires TextAt(FieldsOf(Fields(value)), path, rules.isText).Some? && !rules.isBlank(TextAt(FieldsOf(Fields(value)), path, rules.isText).value)
    ensures TextAt(FieldsOf(Fields(value)), path, rules.isText).value in TextsIn(value, rules)
    decreases |path|
  {
    var text := TextAt(FieldsOf(Fields(value)), path, rules.isText).value;
    var k := FirstContentIsField(Fields(value), path[0]);
    var bytes := Fields(value)[k].field.bytes;
    if |path| > 1 {
      PathIsAmongTexts(bytes, path[1..], rules);
    }
    assert text in TextsIn(bytes, rules);
    FieldTextsAreNested(value, |Fields(value)|, k, rules, text);
  }

  /** And every text at any depth is a readable one that is not blank. */
  lemma {:induction false} TextsAreReadable(value: Text, rules: Rules)
    ensures forall t | t in TextsIn(value, rules) :: rules.isText(t) && !rules.isBlank(t)
    decreases |value|, 1, 0
  {
    NestedAreReadable(value, |Fields(value)|, rules);
  }

  lemma {:induction false} NestedAreReadable(value: Text, n: nat, rules: Rules)
    requires n <= |Fields(value)|
    ensures forall t | t in NestedTexts(value, n, rules) :: rules.isText(t) && !rules.isBlank(t)
    decreases |value|, 0, n
  {
    if n > 0 {
      NestedAreReadable(value, n - 1, rules);
      if Fields(value)[n - 1].field.Content? {
        NestedIsShorter(value, n - 1);
        TextsAreReadable(Fields(value)[n - 1].field.bytes, rules);
      }
    }
  }
}
