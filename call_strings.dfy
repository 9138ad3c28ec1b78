/**
 * The default description of a job: the function name followed by the
 * argument list, positional arguments first and then the keyword arguments
 * sorted by name, each written `name=repr(value)`. The textual form of a single
 * argument (`repr`) is a parameter of the model.
 */
module CallStrings {
  import opened Arguments

  /** Lexicographic order on names, character by character (code point order). */
  predicate KeyLe(a: string, b: string)
    decreases |a|
  {
    a == [] || (b != [] && if a[0] == b[0] then KeyLe(a[1..], b[1..]) else a[0] < b[0])
  }

  lemma {:induction false} KeyLeReflexive(a: string)
    ensures KeyLe(a, a)
    decreases |a|
  {
    if a != [] {
      KeyLeReflexive(a[1..]);
    }
  }

  lemma {:induction false} KeyLeTotal(a: string, b: string)
    ensures KeyLe(a, b) || KeyLe(b, a)
    decreases |a|
  {
    if a != [] && b != [] && a[0] == b[0] {
      KeyLeTotal(a[1..], b[1..]);
    }
  }

  lemma {:induction false} KeyLeTransitive(a: string, b: string, c: string)
    requires KeyLe(a, b) && KeyLe(b, c)
    ensures KeyLe(a, c)
    decreases |a|
  {
    if a != [] && a[0] == b[0] && b[0] == c[0] {
      KeyLeTransitive(a[1..], b[1..], c[1..]);
    }
  }

  lemma {:induction false} KeyLeAntisymmetric(a: string, b: string)
    requires KeyLe(a, b) && KeyLe(b, a)
    ensures a == b
    decreases |a|
  {
    if a != [] {
      KeyLeAntisymmetric(a[1..], b[1..]);
      assert a == [a[0]] + a[1..] && b == [b[0]] + b[1..];
    }
  }

  ghost predicate SortedByKey(es: seq<Entry>) {
    forall i, j :: 0 <= i < j < |es| ==> KeyLe(es[i].key, es[j].key)
  }

  /** No two keyword arguments share a name, as in a dictionary. */
  ghost predicate UniqueKeys(es: seq<Entry>) {
    forall i, j :: 0 <= i < j < |es| ==> es[i].key != es[j].key
  }

  /** Among the entries of `es`, a name determines the entry. */
  ghost predicate KeysDetermineEntries(es: seq<Entry>) {
    forall x, y :: x in es && y in es && x.key == y.key ==> x == y
  }

  lemma InsertSorted(e: Entry, s: seq<Entry>, r: seq<Entry>)
    requires SortedByKey(s) && s != []
    requires r == [e] + s && KeyLe(e.key, s[0].key)
    ensures SortedByKey(r)
  {
    forall j | 0 <= j < |s|
      ensures KeyLe(e.key, s[j].key)
    {
      if j > 0 {
        KeyLeTransitive(e.key, s[0].key, s[j].key);
      }
    }
  }

  lemma InsertAfterSorted(e: Entry, s: seq<Entry>, rest: seq<Entry>, r: seq<Entry>)
    requires SortedByKey(s) && s != [] && !KeyLe(e.key, s[0].key)
    requires SortedByKey(rest) && multiset(rest) == multiset(s[1..]) + multiset{e}
    requires r == [s[0]] + rest
    ensures SortedByKey(r)
  {
    KeyLeTotal(e.key, s[0].key);
    forall j | 0 <= j < |rest|
      ensures KeyLe(s[0].key, rest[j].key)
    {
      assert rest[j] in multiset(rest);
      if rest[j] != e {
        assert rest[j] in multiset(s[1..]);
        var k :| 0 <= k < |s[1..]| && s[1..][k] == rest[j];
        assert s[k + 1] == rest[j];
      }
    }
  }

  /** Inserts `e` into a sorted list of entries, keeping it sorted. */
  function Insert(e: Entry, s: seq<Entry>): (r: seq<Entry>)
    requires SortedByKey(s)
    ensures SortedByKey(r) && multiset(r) == multiset(s) + multiset{e}
  {
    if s == [] then [e]
    else if KeyLe(e.key, s[0].key) then
      InsertSorted(e, s, [e] + s);
      [e] + s
    else
      var rest := Insert(e, s[1..]);
      InsertAfterSorted(e, s, rest, [s[0]] + rest);
      assert s == [s[0]] + s[1..];
      [s[0]] + rest
  }

  /** The keyword arguments in name order: a sorted permutation of `es`. */
  function SortByKey(es: seq<Entry>): (r: seq<Entry>)
    ensures SortedByKey(r) && multiset(r) == multiset(es)
  {
    if es == [] then []
    else
      assert es == [es[0]] + es[1..];
      Insert(es[0], SortByKey(es[1..]))
  }

  lemma SortedFirstIsLeast(s: seq<Entry>, x: Entry)
    requires SortedByKey(s) && x in s
    ensures KeyLe(s[0].key, x.key)
  {
    var i :| 0 <= i < |s| && s[i] == x;
    if i == 0 {
      KeyLeReflexive(x.key);
    }
  }

  lemma SortedTail(s: seq<Entry>)
    requires SortedByKey(s) && s != []
    ensures SortedByKey(s[1..])
    ensures multiset(s[1..]) == multiset(s) - multiset{s[0]}
  {
    assert s == [s[0]] + s[1..];
  }

  /** Two sorted lists with the same entries, where a name determines the entry, are equal. */
  lemma {:induction false} SortedUnique(a: seq<Entry>, b: seq<Entry>)
    requires SortedByKey(a) && SortedByKey(b) && multiset(a) == multiset(b)
    requires KeysDetermineEntries(a)
    ensures a == b
    decreases |a|
  {
    if a == [] {
      assert |multiset(b)| == 0;
    } else {
      assert a[0] in multiset(b);
      assert b != [];
      assert b[0] in multiset(a);
      SortedFirstIsLeast(b, a[0]);
      SortedFirstIsLeast(a, b[0]);
      KeyLeAntisymmetric(a[0].key, b[0].key);
      assert a[0] == b[0];
      SortedTail(a);
      SortedTail(b);
      SortedUnique(a[1..], b[1..]);
    }
  }

  lemma UniqueKeysDetermine(es: seq<Entry>)
    requires UniqueKeys(es)
    ensures KeysDetermineEntries(es)
  {
    forall x, y | x in es && y in es && x.key == y.key
      ensures x == y
    {
      var i :| 0 <= i < |es| && es[i] == x;
      var j :| 0 <= j < |es| && es[j] == y;
      assert i == j;
    }
  }

  /** The items of an argument list joined with ", ". */
  function Join(parts: seq<string>): string {
    if parts == [] then ""
    else if |parts| == 1 then parts[0]
    else parts[0] + ", " + Join(parts[1..])
  }

  function ArgReprs(args: seq<Arg>, repr: Arg -> string): seq<string> {
    seq(|args|, i requires 0 <= i < |args| => repr(args[i]))
  }

  function KwargReprs(es: seq<Entry>, repr: Arg -> string): seq<string> {
    seq(|es|, i requires 0 <= i < |es| => es[i].key + "=" + repr(es[i].val))
  }

  /** `funcName(arg1, arg2, name1=value1, ...)` with the names in sorted order. */
  function CallString(funcName: string, args: seq<Arg>, kwargs: seq<Entry>, repr: Arg -> string): string {
    funcName + "(" + Join(ArgReprs(args, repr) + KwargReprs(SortByKey(kwargs), repr)) + ")"
  }

  /**
   * The description does not depend on the order in which the keyword
   * arguments were given.
   */
  lemma CallStringIgnoresKwargOrder(funcName: string, args: seq<Arg>, k1: seq<Entry>, k2: seq<Entry>,
                                    repr: Arg -> string)
    requires UniqueKeys(k1) && multiset(k1) == multiset(k2)
    ensures CallString(funcName, args, k1, repr) == CallString(funcName, args, k2, repr)
  {
    var s1, s2 := SortByKey(k1), SortByKey(k2);
    UniqueKeysDetermine(k1);
    forall x, y | x in s1 && y in s1 && x.key == y.key
      ensures x == y
    {
      assert x in multiset(s1) && y in multiset(s1);
      assert x in multiset(k1) && y in multiset(k1);
    }
    SortedUnique(s1, s2);
  }

  lemma SnowmanNullSorted()
    ensures SortByKey([Entry("snowman", Concrete(StrValue("\U{2603}"))), Entry("null", Concrete(NoneValue))])
         == [Entry("null", Concrete(NoneValue)), Entry("snowman", Concrete(StrValue("\U{2603}")))]
  {
    var snow := Entry("snowman", Concrete(StrValue("\U{2603}")));
    var nul := Entry("null", Concrete(NoneValue));
    assert !KeyLe("snowman", "null");
    assert [snow, nul][1..] == [nul];
    assert SortByKey([nul]) == [nul];
  }

  lemma UnicodeDescriptionParts(repr: Arg -> string)
    requires repr(Concrete(IntValue(12))) == "12"
    requires repr(Concrete(StrValue("\U{2603}"))) == "'\U{2603}'"
    requires repr(Concrete(NoneValue)) == "None"
    ensures ArgReprs([Concrete(IntValue(12)), Concrete(StrValue("\U{2603}"))], repr)
          + KwargReprs(SortByKey([Entry("snowman", Concrete(StrValue("\U{2603}"))), Entry("null", Concrete(NoneValue))]), repr)
         == ["12", "'\U{2603}'", "null=None", "snowman='\U{2603}'"]
  {
    var snow := Entry("snowman", Concrete(StrValue("\U{2603}")));
    var nul := Entry("null", Concrete(NoneValue));
    SnowmanNullSorted();
    assert KwargReprs([nul, snow], repr) == ["null=None", "snowman='\U{2603}'"] by {
      assert "null" + "=" + "None" == "null=None";
      assert "snowman" + "=" + "'\U{2603}'" == "snowman='\U{2603}'";
    }
  }

  lemma UnicodeDescriptionText()
    ensures "myfunc" + "(" + Join(["12", "'\U{2603}'", "null=None", "snowman='\U{2603}'"]) + ")"
         == "myfunc(12, '\U{2603}', null=None, snowman='\U{2603}')"
  {
    var p1, p2, p3, p4 := "12", "'\U{2603}'", "null=None", "snowman='\U{2603}'";
    var j4 := "null=None, snowman='\U{2603}'";
    assert [p3, p4][1..] == [p4];
    assert Join([p3, p4]) == j4;
    var j3 := "'\U{2603}', " + j4;
    assert [p2, p3, p4][1..] == [p3, p4];
    assert Join([p2, p3, p4]) == j3;
    var j2 := "12, " + j3;
    assert [p1, p2, p3, p4][1..] == [p2, p3, p4];
    assert Join([p1, p2, p3, p4]) == j2;
  }

  /**
   * A call with the positional arguments 12 and the snowman and the keyword
   * arguments snowman and null renders the keywords in name order.
   */
  lemma UnicodeDescription(repr: Arg -> string)
    requires repr(Concrete(IntValue(12))) == "12"
    requires repr(Concrete(StrValue("\U{2603}"))) == "'\U{2603}'"
    requires repr(Concrete(NoneValue)) == "None"
    ensures CallString("myfunc",
                       [Concrete(IntValue(12)), Concrete(StrValue("\U{2603}"))],
                       [Entry("snowman", Concrete(StrValue("\U{2603}"))), Entry("null", Concrete(NoneValue))],
                       repr)
            == "myfunc(12, '\U{2603}', null=None, snowman='\U{2603}')"
  {
    UnicodeDescriptionParts(repr);
    UnicodeDescriptionText();
  }
}
