/** Canonical encodings: the sorted, duplicate-free arrays that the application writes and
    the database re-checks with a strictly-increasing loop. Text is ordered by code point. */
module Canonical {
  import opened Results

  // ----- the text order

  predicate Less(a: string, b: string) {
    if b == [] then false
    else if a == [] then true
    else a[0] < b[0] || (a[0] == b[0] && Less(a[1..], b[1..]))
  }

  lemma {:induction false} LessIsStrict(a: string)
    ensures !Less(a, a)
  {
    if a != [] { LessIsStrict(a[1..]); }
  }

  lemma {:induction false} LessIsTransitive(a: string, b: string, c: string)
    requires Less(a, b) && Less(b, c)
    ensures Less(a, c)
  {
    if a != [] && a[0] == b[0] == c[0] { LessIsTransitive(a[1..], b[1..], c[1..]); }
  }

  lemma {:induction false} LessIsTotal(a: string, b: string)
    ensures a == b || Less(a, b) || Less(b, a)
  {
    if a != [] && b != [] && a[0] == b[0] {
      LessIsTotal(a[1..], b[1..]);
      assert a == [a[0]] + a[1..] && b == [b[0]] + b[1..];
    }
  }

  lemma {:induction false} CommonPrefix(p: string, x: string, y: string)
    ensures Less(p + x, p + y) <==> Less(x, y)
  {
    if p == [] {
      assert p + x == x && p + y == y;
    } else {
      assert (p + x)[1..] == p[1..] + x && (p + y)[1..] == p[1..] + y;
      CommonPrefix(p[1..], x, y);
    }
  }

  /** What follows two words never matters when neither word is a prefix of the other. */
  lemma {:induction false} PrefixFree(a: string, x: string, b: string, y: string)
    requires !(a <= b) && !(b <= a)
    ensures Less(a + x, b + y) <==> Less(a, b)
  {
    assert (a + x)[0] == a[0] && (b + y)[0] == b[0];
    if a[0] == b[0] {
      assert (a + x)[1..] == a[1..] + x && (b + y)[1..] == b[1..] + y;
      assert a == [a[0]] + a[1..] && b == [b[0]] + b[1..];
      PrefixFree(a[1..], x, b[1..], y);
    }
  }

  // ----- sorted, duplicate-free sequences

  predicate StrictlyIncreasing(s: seq<string>) {
    forall i | 0 < i < |s| :: Less(s[i - 1], s[i])
  }

  /** `tuple(sorted(set(s)))` */
  function SortedSet(s: seq<string>): seq<string> {
    if s == [] then [] else InsertUnique(s[0], SortedSet(s[1..]))
  }

  function InsertUnique(x: string, s: seq<string>): seq<string> {
    if s == [] then [x]
    else if x == s[0] then s
    else if Less(x, s[0]) then [x] + s
    else [s[0]] + InsertUnique(x, s[1..])
  }

  lemma {:induction false} InsertUniqueKeepsOrder(x: string, s: seq<string>)
    requires StrictlyIncreasing(s)
    ensures StrictlyIncreasing(InsertUnique(x, s))
    ensures forall y :: y in InsertUnique(x, s) <==> y == x || y in s
  {
    if s != [] && x != s[0] && !Less(x, s[0]) {
      LessIsTotal(x, s[0]);
      var rest := InsertUnique(x, s[1..]);
      forall i | 0 < i < |s[1..]| ensures Less(s[1..][i - 1], s[1..][i]) { assert Less(s[i], s[i + 1]); }
      InsertUniqueKeepsOrder(x, s[1..]);
      assert s == [s[0]] + s[1..];
      var r := [s[0]] + rest;
      assert Less(s[0], rest[0]) by {
        if |s| > 1 { assert Less(s[1 - 1], s[1]); }
      }
      forall i | 0 < i < |r| ensures Less(r[i - 1], r[i]) {
        if i > 1 { assert Less(rest[i - 2], rest[i - 1]); }
      }
    }
  }

  lemma {:induction false} SortedSetIsCanonical(s: seq<string>)
    ensures StrictlyIncreasing(SortedSet(s))
    ensures forall y :: y in SortedSet(s) <==> y in s
  {
    if s != [] {
      SortedSetIsCanonical(s[1..]);
      InsertUniqueKeepsOrder(s[0], SortedSet(s[1..]));
      assert s == [s[0]] + s[1..];
    }
  }

  lemma {:induction false} HeadIsLeast(s: seq<string>, i: nat)
    requires StrictlyIncreasing(s) && 0 < i < |s|
    ensures Less(s[0], s[i])
  {
    assert Less(s[i - 1], s[i]);
    if i > 1 {
      HeadIsLeast(s, i - 1);
      LessIsTransitive(s[0], s[i - 1], s[i]);
    }
  }

  /** A strictly increasing sequence is determined by its members. */
  lemma {:induction false} MembersDetermine(s: seq<string>, t: seq<string>)
    requires StrictlyIncreasing(s) && StrictlyIncreasing(t)
    requires forall y :: y in s <==> y in t
    ensures s == t
  {
    assert t != [] ==> t[0] in s;
    assert s != [] ==> s[0] in t;
    if s != [] {
      SameHead(s, t);
      TailIsIncreasing(s);
      TailIsIncreasing(t);
      forall y ensures y in s[1..] <==> y in t[1..] {
        TailMembers(s, y);
        TailMembers(t, y);
      }
      MembersDetermine(s[1..], t[1..]);
      assert s == [s[0]] + s[1..] && t == [t[0]] + t[1..];
    }
  }

  lemma SameHead(s: seq<string>, t: seq<string>)
    requires s != [] && t != [] && StrictlyIncreasing(s) && StrictlyIncreasing(t)
    requires forall y :: y in s <==> y in t
    ensures s[0] == t[0]
  {
    assert s[0] in t && t[0] in s;
    var i :| 0 <= i < |t| && t[i] == s[0];
    var j :| 0 <= j < |s| && s[j] == t[0];
    if i > 0 { HeadIsLeast(t, i); }
    if j > 0 { HeadIsLeast(s, j); }
    if i > 0 && j > 0 {
      LessIsTransitive(s[0], t[0], s[0]);
      LessIsStrict(s[0]);
    }
  }

  lemma TailIsIncreasing(s: seq<string>)
    requires s != [] && StrictlyIncreasing(s)
    ensures StrictlyIncreasing(s[1..])
  {
    forall i | 0 < i < |s[1..]| ensures Less(s[1..][i - 1], s[1..][i]) { assert Less(s[i], s[i + 1]); }
  }

  lemma TailMembers(s: seq<string>, y: string)
    requires s != [] && StrictlyIncreasing(s)
    ensures y in s[1..] <==> y in s && y != s[0]
  {
    assert s == [s[0]] + s[1..];
    if y in s[1..] {
      var k :| 0 <= k < |s[1..]| && s[1..][k] == y;
      HeadIsLeast(s, k + 1);
      LessIsStrict(y);
    }
  }

  /** The strictly-increasing loop accepts exactly the arrays that equal their sorted,
      deduplicated self. */
  lemma IncreasingIffSortedSet(s: seq<string>)
    ensures StrictlyIncreasing(s) <==> SortedSet(s) == s
  {
    SortedSetIsCanonical(s);
    if StrictlyIncreasing(s) { MembersDetermine(SortedSet(s), s); }
  }

  /** Equal sets, and only equal sets, have equal encodings. */
  lemma EncodingIffSameSet(s: seq<string>, t: seq<string>)
    ensures SortedSet(s) == SortedSet(t) <==> forall y :: y in s <==> y in t
  {
    SortedSetIsCanonical(s);
    SortedSetIsCanonical(t);
    if forall y :: y in s <==> y in t { MembersDetermine(SortedSet(s), SortedSet(t)); }
    if SortedSet(s) == SortedSet(t) {
      forall y ensures y in s <==> y in t { assert y in s <==> y in SortedSet(s); }
    }
  }

  // ----- tuples of text, bound and loaded

  predicate IsSpace(c: char) { c in {' ', '\t', '\n', '\r'} }

  /** Nothing is left of the text once Python strips it. */
  predicate Blank(s: string) { forall c | c in s :: IsSpace(c) }

  /** Nothing is left of the text once SQL `btrim` strips it of spaces. */
  predicate SqlBlank(s: string) { forall c | c in s :: c == ' ' }

  datatype EncodingError = BlankItem | NotCanonical | WrongType

  function BindTuple(value: seq<string>): Result<seq<string>, EncodingError> {
    if exists item | item in value :: Blank(item) then Err(BlankItem)
    else if SortedSet(value) != value then Err(NotCanonical)
    else Ok(value)
  }

  function LoadTuple(value: Json): Result<seq<string>, EncodingError> {
    if !value.Array? || exists item | item in value.items :: !item.Text? then Err(WrongType) else
    var strings := seq(|value.items|, i requires 0 <= i < |value.items| => TextOf(value.items[i]));
    if SortedSet(strings) != strings then Err(NotCanonical) else Ok(strings)
  }

  // ----- the database side

  datatype Json =
    | Null | Number | Bool | Text(text: string) | Array(items: seq<Json>) | Object(fields: map<string, Json>)

  function TextOf(j: Json): string { if j.Text? then j.text else "" }

  function Texts(strings: seq<string>): Json {
    Array(seq(|strings|, i requires 0 <= i < |strings| => Text(strings[i])))
  }

  /** How a database compares two texts: its `<=` under the collation of the comparison. */
  type Collation = (string, string) -> bool

  /** The comparison by code point. */
  const CODE_POINT: Collation := (a: string, b: string) => NotAfter(a, b)

  /** No text comes at or before the one that precedes it. */
  predicate Ascending(s: seq<string>, atMost: Collation) {
    forall i | 0 < i < |s| :: !atMost(s[i], s[i - 1])
  }

  lemma AscendingByCodePoint(s: seq<string>)
    ensures Ascending(s, CODE_POINT) <==> StrictlyIncreasing(s)
  {
    forall i | 0 < i < |s| ensures !CODE_POINT(s[i], s[i - 1]) <==> Less(s[i - 1], s[i]) {
      LessIsTotal(s[i], s[i - 1]);
      if NotAfter(s[i], s[i - 1]) { NotBothWays(s[i], s[i - 1]); }
    }
  }

  /** The meaning of the array check under a collation: an array of non-blank texts, each of which
      comes after the last. */
  ghost predicate CanonicalTexts(value: Option<Json>, requireNonempty: bool, atMost: Collation) {
    && value.Some? && value.value.Array?
    && var items := value.value.items;
       && (requireNonempty ==> items != [])
       && (forall item | item in items :: item.Text? && !SqlBlank(item.text))
       && Ascending(seq(|items|, i requires 0 <= i < |items| => TextOf(items[i])), atMost)
  }

  method StringArrayIsCanonical(value: Option<Json>, requireNonempty: bool, atMost: Collation) returns (accepted: bool)
    ensures accepted <==> CanonicalTexts(value, requireNonempty, atMost)
  {
    if value.None? || !value.value.Array? { return false; }
    var items := value.value.items;
    if requireNonempty && |items| == 0 { return false; }
    ghost var texts := seq(|items|, i requires 0 <= i < |items| => TextOf(items[i]));
    var previous: Option<string> := None;
    for k := 0 to |items|
      invariant previous == if k == 0 then None else Some(texts[k - 1])
      invariant forall i | 0 <= i < k :: items[i].Text? && !SqlBlank(items[i].text)
      invariant forall i | 0 < i < k :: !atMost(texts[i], texts[i - 1])
    {
      assert items[k] in items;
      if !items[k].Text? { return false; }
      var current := items[k].text;
      if SqlBlank(current) { return false; }
      if previous.Some? && atMost(current, previous.value) {
        assert texts[k] == current && texts[k - 1] == previous.value;
        return false;
      }
      previous := Some(current);
    }
    return true;
  }

  lemma NotBothWays(a: string, b: string)
    requires a == b || Less(a, b)
    ensures !Less(b, a)
  {
    LessIsStrict(a);
    if Less(a, b) && Less(b, a) { LessIsTransitive(a, b, a); }
  }

  /** Whatever the application binds is loaded back unchanged. Under any collation the database
      accepts it exactly when it is ascending there too, and is not empty where the column requires
      an entry; compared by code point, every bound tuple is ascending. */
  lemma BindThenLoad(value: seq<string>, requireNonempty: bool, atMost: Collation)
    requires BindTuple(value).Ok?
    ensures BindTuple(value).value == value
    ensures LoadTuple(Texts(value)) == Ok(value)
    ensures CanonicalTexts(Some(Texts(value)), requireNonempty, atMost)
       <==> Ascending(value, atMost) && (requireNonempty ==> value != [])
    ensures Ascending(value, CODE_POINT)
  {
    var items := Texts(value).items;
    var strings := seq(|items|, i requires 0 <= i < |items| => TextOf(items[i]));
    assert strings == value;
    IncreasingIffSortedSet(value);
    AscendingByCodePoint(value);
    forall item | item in items ensures item.Text? && !SqlBlank(item.text) {
      var k :| 0 <= k < |items| && items[k] == item;
      assert value[k] in value && !Blank(value[k]);
    }
  }

  /** Which tuples are bound and which arrays are loaded, and why the others are not. */
  lemma TupleErrors(value: seq<string>, j: Json)
    ensures BindTuple(value).Ok? <==> StrictlyIncreasing(value) && forall item | item in value :: !Blank(item)
    ensures BindTuple(value) == Err(BlankItem) <==> exists item :: item in value && Blank(item)
    ensures LoadTuple(j) == Err(WrongType) <==> !j.Array? || exists item :: item in j.items && !item.Text?
    ensures LoadTuple(j).Ok? ==> StrictlyIncreasing(LoadTuple(j).value) && j == Texts(LoadTuple(j).value)
    ensures StrictlyIncreasing(value) ==> LoadTuple(Texts(value)) == Ok(value)
    ensures !StrictlyIncreasing(value) ==> LoadTuple(Texts(value)) == Err(NotCanonical)
    ensures BindTuple(value) != Err(WrongType)
  {
    IncreasingIffSortedSet(value);
    var items := Texts(value).items;
    assert seq(|items|, i requires 0 <= i < |items| => TextOf(items[i])) == value;
    if j.Array? && forall item | item in j.items :: item.Text? {
      var strings := seq(|j.items|, i requires 0 <= i < |j.items| => TextOf(j.items[i]));
      IncreasingIffSortedSet(strings);
      forall i | 0 <= i < |j.items| ensures Texts(strings).items[i] == j.items[i] { assert j.items[i] in j.items; }
      assert Texts(strings).items == j.items;
    }
  }

  // ----- technical scopes

  const PREDICTIVE_EVALUATE := "predictive:evaluate"
  const ORCHESTRATION_OPERATE := "orchestration:operate"

  predicate KnownScope(s: string) { s == PREDICTIVE_EVALUATE || s == ORCHESTRATION_OPERATE }

  datatype ScopeError = UnknownScope | NoScope

  /** Written scopes: closed vocabulary, never empty, sorted and deduplicated. */
  function CanonicalScopes(scopes: seq<string>): Result<seq<string>, ScopeError> {
    if exists s | s in scopes :: !KnownScope(s) then Err(UnknownScope)
    else if scopes == [] then Err(NoScope)
    else Ok(SortedSet(scopes))
  }

  /** What may be written: at least one scope, each of the closed vocabulary. */
  lemma ScopesWrittenIff(scopes: seq<string>)
    ensures CanonicalScopes(scopes) == Err(UnknownScope)
       <==> exists s :: s in scopes && s != "predictive:evaluate" && s != "orchestration:operate"
    ensures CanonicalScopes(scopes) == Err(NoScope) <==> scopes == []
    ensures CanonicalScopes(scopes).Ok?
       <==> scopes != [] && forall s | s in scopes :: s == "predictive:evaluate" || s == "orchestration:operate"
  {
  }

  /** `sorted` of a set of texts. */
  ghost function Sorted(s: set<string>): seq<string> {
    if s == {} then [] else
    var x :| x in s;
    InsertUnique(x, Sorted(s - {x}))
  }

  lemma {:induction false} SortedIsCanonical(s: set<string>)
    ensures StrictlyIncreasing(Sorted(s))
    ensures forall y :: y in Sorted(s) <==> y in s
  {
    if s != {} {
      var x :| x in s && Sorted(s) == InsertUnique(x, Sorted(s - {x}));
      SortedIsCanonical(s - {x});
      InsertUniqueKeepsOrder(x, Sorted(s - {x}));
    }
  }

  /** Read scopes: sorted and deduplicated, non-texts dropped, never rejected. Iterating an object
      yields its keys; nothing else that is persisted can be iterated. */
  ghost function NormalizePersistedScopes(value: Option<Json>): seq<string> {
    match value
    case Some(Array(items)) => SortedSet(OnlyTexts(items))
    case Some(Object(fields)) => Sorted(fields.Keys)
    case _ => []
  }

  predicate Yields(value: Option<Json>, text: string) {
    match value
    case Some(Array(items)) => Text(text) in items
    case Some(Object(fields)) => text in fields
    case _ => false
  }

  lemma {:induction false} OnlyTextsMembers(items: seq<Json>, text: string)
    ensures text in OnlyTexts(items) <==> Text(text) in items
  {
    if items != [] {
      OnlyTextsMembers(items[1..], text);
      assert items == [items[0]] + items[1..];
    }
  }

  /** Whatever is persisted, reading gives canonical scopes: in strictly increasing order, exactly
      the texts that iterating the value yields. */
  lemma ReadScopesAreCanonical(value: Option<Json>, text: string)
    ensures StrictlyIncreasing(NormalizePersistedScopes(value))
    ensures text in NormalizePersistedScopes(value) <==> Yields(value, text)
  {
    match value
    case Some(Array(items)) =>
      SortedSetIsCanonical(OnlyTexts(items));
      OnlyTextsMembers(items, text);
    case Some(Object(fields)) => SortedIsCanonical(fields.Keys);
    case _ =>
  }

  function OnlyTexts(items: seq<Json>): seq<string> {
    if items == [] then [] else (if items[0].Text? then [items[0].text] else []) + OnlyTexts(items[1..])
  }

  lemma {:induction false} OnlyTextsOfTexts(strings: seq<string>)
    ensures OnlyTexts(Texts(strings).items) == strings
  {
    if strings != [] {
      assert Texts(strings).items[1..] == Texts(strings[1..]).items;
      OnlyTextsOfTexts(strings[1..]);
    }
  }

  /** Writing then reading scopes is lossless, and two principals with the same set of known
      scopes are stored identically. */
  lemma ScopesRoundTrip(scopes: seq<string>, others: seq<string>)
    requires CanonicalScopes(scopes).Ok? && CanonicalScopes(others).Ok?
    ensures NormalizePersistedScopes(Some(Texts(CanonicalScopes(scopes).value))) == CanonicalScopes(scopes).value
    ensures CanonicalScopes(scopes) == CanonicalScopes(others) <==> forall y :: y in scopes <==> y in others
    ensures forall y :: y in CanonicalScopes(scopes).value <==> y in scopes
  {
    var stored := CanonicalScopes(scopes).value;
    OnlyTextsOfTexts(stored);
    SortedSetIsCanonical(scopes);
    IncreasingIffSortedSet(stored);
    EncodingIffSameSet(scopes, others);
  }

  // ----- evidence references

  predicate KnownKind(kind: string) {
    || kind == "cognitive_object" || kind == "causal_event"
    || kind == "provenance_record" || kind == "transformation_record"
  }

  datatype Reference = Reference(kind: string, ref: string)

  function Key(r: Reference): string { r.kind + ("|" + r.ref) }

  /** The intended order: by kind, then by reference. */
  predicate Before(r: Reference, s: Reference) {
    Less(r.kind, s.kind) || (r.kind == s.kind && Less(r.ref, s.ref))
  }

  lemma KindsArePrefixFree(k: string, l: string)
    requires KnownKind(k) && KnownKind(l) && k != l
    ensures !(k <= l)
  {
    assert k[0] != l[0] || k[1] != l[1];
  }

  /** Comparing the joined keys is comparing (kind, ref), because no kind is a prefix of
      another. */
  lemma KeyOrderIsPairOrder(r: Reference, s: Reference)
    requires KnownKind(r.kind) && KnownKind(s.kind)
    ensures Less(Key(r), Key(s)) <==> Before(r, s)
    ensures Key(r) == Key(s) <==> r == s
  {
    if r.kind == s.kind {
      SameKindOrder(r, s);
    } else {
      KindsArePrefixFree(r.kind, s.kind);
      KindsArePrefixFree(s.kind, r.kind);
      DifferentKindOrder(r, s);
    }
  }

  lemma SameKindOrder(r: Reference, s: Reference)
    requires r.kind == s.kind
    ensures Less(Key(r), Key(s)) <==> Less(r.ref, s.ref)
    ensures !Less(r.kind, s.kind)
    ensures Key(r) == Key(s) ==> r.ref == s.ref
  {
    CommonPrefix(r.kind, "|" + r.ref, "|" + s.ref);
    CommonPrefix("|", r.ref, s.ref);
    LessIsStrict(r.kind);
    assert Key(r)[|r.kind| + 1..] == r.ref && Key(s)[|s.kind| + 1..] == s.ref;
  }

  lemma DifferentKindOrder(r: Reference, s: Reference)
    requires !(r.kind <= s.kind) && !(s.kind <= r.kind)
    ensures Less(Key(r), Key(s)) <==> Less(r.kind, s.kind)
    ensures Key(r) != Key(s)
  {
    PrefixFree(r.kind, "|" + r.ref, s.kind, "|" + s.ref);
    PrefixFree(s.kind, "|" + s.ref, r.kind, "|" + r.ref);
    LessIsTotal(r.kind, s.kind);
    LessIsStrict(Key(r));
  }

  /** The comparison the database makes: the next key does not come strictly after. */
  predicate NotAfter(current: string, previous: string) { current == previous || Less(current, previous) }

  lemma NotAfterIffNotBefore(last: Reference, item: Reference)
    requires KnownKind(last.kind) && KnownKind(item.kind)
    ensures NotAfter(Key(item), Key(last)) <==> !Before(last, item)
  {
    KeyOrderIsPairOrder(last, item);
    LessIsTotal(Key(item), Key(last));
    if NotAfter(Key(item), Key(last)) { NotBothWays(Key(item), Key(last)); }
  }

  predicate Hex(c: char) { '0' <= c <= '9' || 'a' <= c <= 'f' }

  predicate Sha256(s: string) { |s| == 64 && forall c | c in s :: Hex(c) }

  /** From position i on, the lower-case 8-4-4-4-12 form. */
  predicate Uuid(s: string, i: nat := 0)
    requires i <= |s|
    decreases |s| - i
  {
    if i == |s| then i == 36
    else (if i == 8 || i == 13 || i == 18 || i == 23 then s[i] == '-' else Hex(s[i])) && Uuid(s, i + 1)
  }

  predicate UuidDash(i: int) { i in {8, 13, 18, 23} }

  /** The form as a whole: 36 characters, dashes in four places and lower-case hexadecimal elsewhere. */
  lemma {:induction false} UuidIff(s: string, i: nat)
    requires i <= |s|
    ensures Uuid(s, i) <==>
      && |s| == 36
      && forall k | i <= k < |s| :: if UuidDash(k) then s[k] == '-' else '0' <= s[k] <= '9' || 'a' <= s[k] <= 'f'
    decreases |s| - i
  {
    if i < |s| { UuidIff(s, i + 1); }
  }

  /** A digest is 64 lower-case hexadecimal characters. */
  lemma Sha256Iff(s: string)
    ensures Sha256(s) <==> |s| == 64 && forall k | 0 <= k < |s| :: '0' <= s[k] <= '9' || 'a' <= s[k] <= 'f'
  {
    if Sha256(s) { assert forall k | 0 <= k < |s| :: s[k] in s; }
  }

  predicate IsReference(j: Json) {
    && j.Object? && |j.fields| == 2 && "kind" in j.fields && "ref" in j.fields
    && j.fields["kind"].Text? && j.fields["ref"].Text?
    && KnownKind(j.fields["kind"].text) && Uuid(j.fields["ref"].text)
  }

  function ReadReference(j: Json): (r: Option<Reference>)
    ensures r.Some? ==> KnownKind(r.value.kind)
  {
    if IsReference(j) then Some(Reference(j.fields["kind"].text, j.fields["ref"].text)) else None
  }

  /** The object a reference is stored as: its kind and its ref, and no other key. */
  function StoredReference(r: Reference): Json {
    Object(map["kind" := Text(r.kind), "ref" := Text(r.ref)])
  }

  /** An item is a well-formed reference exactly when it is the stored form of one, of a known kind and a
      canonical identifier; reading it gives that reference back. */
  lemma ReferenceIff(j: Json, r: Reference)
    ensures ReadReference(j) == Some(r) <==> j == StoredReference(r) && KnownKind(r.kind) && Uuid(r.ref)
    ensures IsReference(j) <==> ReadReference(j).Some?
  {
    if IsReference(j) {
      var rest := j.fields.Keys - {"kind"} - {"ref"};
      assert |j.fields.Keys - {"kind"}| == 1 && |rest| == 0;
      assert rest == {} && j.fields.Keys == rest + {"kind", "ref"};
      var own := Reference(j.fields["kind"].text, j.fields["ref"].text);
      assert j.fields == map["kind" := Text(own.kind), "ref" := Text(own.ref)];
    }
    assert StoredReference(r).fields.Keys == {"kind", "ref"};
  }

  /** All items read in order, or nothing when one of them is malformed. */
  function ReadAll(items: seq<Json>): (r: Option<seq<Reference>>)
    ensures r.Some? ==> |r.value| == |items|
    ensures r.Some? ==> forall ref | ref in r.value :: KnownKind(ref.kind)
  {
    if items == [] then Some([]) else
    var earlier := ReadAll(items[..|items| - 1]);
    var last := ReadReference(items[|items| - 1]);
    if earlier.Some? && last.Some? then Some(earlier.value + [last.value]) else None
  }

  lemma {:induction false} ReadAllPrefix(items: seq<Json>, k: nat)
    requires k <= |items| && ReadAll(items).Some?
    ensures ReadAll(items[..k]).Some? && ReadAll(items[..k]).value == ReadAll(items).value[..k]
    decreases |items|
  {
    if k == |items| {
      assert items[..k] == items;
    } else {
      var init := items[..|items| - 1];
      ReadAllPrefix(init, k);
      assert init[..k] == items[..k];
    }
  }

  /** Reading succeeds exactly when every item is a well-formed reference. */
  lemma {:induction false} ReadAllIff(items: seq<Json>)
    ensures ReadAll(items).Some? <==> forall j | j in items :: IsReference(j)
  {
    if items != [] {
      var init := items[..|items| - 1];
      ReadAllIff(init);
      assert items == init + [items[|items| - 1]];
    }
  }

  ghost predicate InOrder(refs: seq<Reference>) {
    forall i | 0 < i < |refs| :: Before(refs[i - 1], refs[i])
  }

  /** The meaning of the evidence check: a non-empty list of well-formed references in strict
      (kind, ref) order that contains the primary one. */
  ghost predicate CanonicalEvidence(evidence: Option<Json>, primary: Reference) {
    && evidence.Some? && evidence.value.Array? && evidence.value.items != []
    && ReadAll(evidence.value.items).Some?
    && InOrder(ReadAll(evidence.value.items).value)
    && primary in ReadAll(evidence.value.items).value
  }

  method EvidenceIsCanonical(evidence: Option<Json>, primary: Reference) returns (accepted: bool)
    ensures accepted <==> CanonicalEvidence(evidence, primary)
  {
    if evidence.None? || !evidence.value.Array? { return false; }
    var items := evidence.value.items;
    if |items| == 0 { return false; }
    ghost var refs: seq<Reference> := [];
    var previous: Option<string> := None;
    var foundPrimary := false;
    for k := 0 to |items|
      invariant ReadAll(items[..k]) == Some(refs) && |refs| == k
      invariant previous == if k == 0 then None else Some(Key(refs[k - 1]))
      invariant InOrder(refs)
      invariant foundPrimary <==> primary in refs
    {
      var item := ReadReference(items[k]);
      OneMoreItem(items, k);
      if item.None? { return false; }
      var current := Key(item.value);
      if previous.Some? {
        NotAfterIffNotBefore(refs[k - 1], item.value);
        if NotAfter(current, previous.value) {
          OutOfOrder(items, k);
          return false;
        }
      }
      OneMore(refs, item.value);
      refs := refs + [item.value];
      previous := Some(current);
      if item.value.kind == primary.kind && item.value.ref == primary.ref { foundPrimary := true; }
    }
    assert items[..|items|] == items;
    return foundPrimary;
  }

  lemma OneMoreItem(items: seq<Json>, k: nat)
    requires k < |items| && ReadAll(items[..k]).Some?
    ensures ReadReference(items[k]).None? ==> ReadAll(items).None?
    ensures ReadReference(items[k]).Some? ==>
      ReadAll(items[..k + 1]) == Some(ReadAll(items[..k]).value + [ReadReference(items[k]).value])
  {
    var longer := items[..k + 1];
    assert longer[..|longer| - 1] == items[..k];
    if ReadAll(items).Some? { ReadAllPrefix(items, k + 1); }
  }

  lemma OutOfOrder(items: seq<Json>, k: nat)
    requires 0 < k < |items| && ReadAll(items[..k]).Some? && ReadReference(items[k]).Some?
    requires !Before(ReadAll(items[..k]).value[k - 1], ReadReference(items[k]).value)
    ensures ReadAll(items).Some? ==> !InOrder(ReadAll(items).value)
  {
    OneMoreItem(items, k);
    if ReadAll(items).Some? {
      var all := ReadAll(items).value;
      ReadAllPrefix(items, k + 1);
      assert all[..k + 1][k - 1] == all[k - 1] && all[..k + 1][k] == all[k];
      assert !Before(all[k - 1], all[k]);
    }
  }

  lemma OneMore(refs: seq<Reference>, item: Reference)
    requires InOrder(refs)
    requires refs != [] ==> Before(refs[|refs| - 1], item)
    ensures InOrder(refs + [item])
  {
    var longer := refs + [item];
    forall i | 0 < i < |longer| ensures Before(longer[i - 1], longer[i]) {
      if i < |refs| { assert Before(refs[i - 1], refs[i]); }
    }
  }

  /** Accepted evidence never repeats a reference. */
  lemma EvidenceIsDuplicateFree(evidence: Option<Json>, primary: Reference, i: nat, j: nat)
    requires CanonicalEvidence(evidence, primary)
    requires i < j < |evidence.value.items|
    ensures ReadReference(evidence.value.items[i]) != ReadReference(evidence.value.items[j])
  {
    var items := evidence.value.items;
    var refs := ReadAll(items).value;
    OrderedKeysIncrease(refs, i, j);
    LessIsStrict(Key(refs[i]));
    ReadAt(items, i);
    ReadAt(items, j);
  }

  lemma ReadAt(items: seq<Json>, i: nat)
    requires ReadAll(items).Some? && i < |items|
    ensures ReadReference(items[i]) == Some(ReadAll(items).value[i])
  {
    ReadAllPrefix(items, i);
    ReadAllPrefix(items, i + 1);
    OneMoreItem(items, i);
    assert ReadAll(items[..i + 1]).value[i] == ReadAll(items).value[..i + 1][i];
  }

  lemma {:induction false} OrderedKeysIncrease(refs: seq<Reference>, i: nat, j: nat)
    requires InOrder(refs) && i < j < |refs|
    requires forall r | r in refs :: KnownKind(r.kind)
    ensures Less(Key(refs[i]), Key(refs[j]))
  {
    assert Before(refs[j - 1], refs[j]);
    KeyOrderIsPairOrder(refs[j - 1], refs[j]);
    if i < j - 1 {
      OrderedKeysIncrease(refs, i, j - 1);
      LessIsTransitive(Key(refs[i]), Key(refs[j - 1]), Key(refs[j]));
    }
  }
}
