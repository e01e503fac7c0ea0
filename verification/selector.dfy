/**
 * Custom label selectors: a selector is a comma-separated list of label names,
 * and an issue matches it when it carries every named label.
 */
module Selector {

  /** The separator between the label names of a selector. */
  const Separator: char := ','

  /**
   * Splitting with the semantics of Go's `strings.Split` for a one-character
   * separator: the pieces between separators, including empty ones, so that
   * "" gives [""] and "a," gives ["a", ""].
   */
  function Split(s: string, sep: char): (parts: seq<string>)
    ensures |parts| >= 1
    ensures forall i :: 0 <= i < |parts| ==> sep !in parts[i]
  {
    if |s| == 0 then [""]
    else
      var rest := Split(s[1..], sep);
      if s[0] == sep then [""] + rest
      else [[s[0]] + rest[0]] + rest[1..]
  }

  /** The inverse of Split: the pieces glued back together with the separator between them. */
  function Join(parts: seq<string>, sep: char): string
    requires |parts| >= 1
  {
    if |parts| == 1 then parts[0] else parts[0] + [sep] + Join(parts[1..], sep)
  }

  /** Joining the pieces of a split gives back the original string. */
  lemma {:induction false} SplitThenJoin(s: string, sep: char)
    ensures Join(Split(s, sep), sep) == s
  {
    if |s| > 0 {
      var rest := Split(s[1..], sep);
      SplitThenJoin(s[1..], sep);
      if s[0] == sep {
        assert ([""] + rest)[1..] == rest;
      } else if |rest| == 1 {
        assert Split(s, sep) == [[s[0]] + rest[0]];
      } else {
        var parts := Split(s, sep);
        assert parts[1..] == rest[1..];
        assert Join(rest, sep) == rest[0] + [sep] + Join(rest[1..], sep);
        assert [s[0]] + s[1..] == s;
      }
    }
  }

  /** Splitting a string that starts with a separator-free piece `p`. */
  lemma {:induction false} SplitPrefix(p: string, tail: string, sep: char)
    requires sep !in p
    ensures Split(p + tail, sep) == [p + Split(tail, sep)[0]] + Split(tail, sep)[1..]
  {
    if |p| > 0 {
      SplitPrefix(p[1..], tail, sep);
      assert (p + tail)[1..] == p[1..] + tail;
      assert [p[0]] + (p[1..] + Split(tail, sep)[0]) == p + Split(tail, sep)[0];
    } else {
      var r := Split(tail, sep);
      assert p + tail == tail && p + r[0] == r[0];
      assert r == [r[0]] + r[1..];
    }
  }

  /** Splitting a join of separator-free pieces gives back the pieces. */
  lemma {:induction false} JoinThenSplit(parts: seq<string>, sep: char)
    requires |parts| >= 1
    requires forall i :: 0 <= i < |parts| ==> sep !in parts[i]
    ensures Split(Join(parts, sep), sep) == parts
  {
    if |parts| == 1 {
      SplitPrefix(parts[0], "", sep);
      assert parts[0] + "" == parts[0];
    } else {
      var tail := [sep] + Join(parts[1..], sep);
      JoinThenSplit(parts[1..], sep);
      SplitPrefix(parts[0], tail, sep);
      assert parts[0] + [sep] + Join(parts[1..], sep) == parts[0] + tail;
      assert Split(tail, sep) == [""] + parts[1..];
      assert parts[0] + "" == parts[0];
    }
  }

  /** A trailing separator adds exactly one empty piece. */
  lemma {:induction false} SplitTrailingSeparator(s: string, sep: char)
    ensures Split(s + [sep], sep) == Split(s, sep) + [""]
  {
    if |s| > 0 {
      SplitTrailingSeparator(s[1..], sep);
      assert (s + [sep])[1..] == s[1..] + [sep];
    }
  }

  /**
   * The matching rule: every label name the selector requires is the name of
   * one of the issue's labels, compared exactly and case-sensitively.
   */
  predicate HasLabels(labels: seq<string>, selector: string)
  {
    var required := Split(selector, Separator);
    forall i :: 0 <= i < |required| ==> required[i] in labels
  }

  /**
   * The search as the collector runs it: for each required name, scan the
   * issue's labels until one has that name; give up at the first name that
   * has none.
   */
  method MatchSelector(labels: seq<string>, selector: string) returns (matched: bool)
    ensures matched == HasLabels(labels, selector)
  {
    var required := Split(selector, Separator);
    var i := 0;
    while i < |required|
      invariant 0 <= i <= |required|
      invariant forall k :: 0 <= k < i ==> required[k] in labels
    {
      var found := false;
      var j := 0;
      while j < |labels|
        invariant 0 <= j <= |labels|
        invariant required[i] !in labels[..j]
      {
        if labels[j] == required[i] {
          found := true;
          break;
        }
        j := j + 1;
      }
      if !found {
        assert labels[..|labels|] == labels;
        return false;
      }
      i := i + 1;
    }
    return true;
  }

  /** Only the required names matter, not their order: a reordered selector matches alike. */
  lemma ReorderedSelectorMatchesAlike(labels: seq<string>, a: string, b: string)
    requires multiset(Split(a, Separator)) == multiset(Split(b, Separator))
    ensures HasLabels(labels, a) == HasLabels(labels, b)
  {
    var pa, pb := Split(a, Separator), Split(b, Separator);
    forall i | 0 <= i < |pa| ensures pa[i] in pb {
      assert pa[i] in multiset(pa);
    }
    forall i | 0 <= i < |pb| ensures pb[i] in pa {
      assert pb[i] in multiset(pb);
    }
  }

  /** An issue without labels matches no selector, not even the empty one. */
  lemma UnlabelledMatchesNothing(selector: string)
    ensures !HasLabels([], selector)
  {
    assert Split(selector, Separator)[0] !in [];
  }

  /**
   * There is no special case for empty names: the empty selector requires a
   * label with the empty name, and a trailing comma adds that requirement.
   */
  lemma EmptyNamesAreRequired(labels: seq<string>, selector: string)
    ensures HasLabels(labels, "") <==> "" in labels
    ensures HasLabels(labels, selector + [Separator]) <==> HasLabels(labels, selector) && "" in labels
  {
    assert Split("", Separator) == [""];
    SplitTrailingSeparator(selector, Separator);
    var p := Split(selector, Separator);
    assert (p + [""])[|p|] == "";
    assert forall i :: 0 <= i < |p| ==> (p + [""])[i] == p[i];
  }

  /** A selector naming one label matches exactly the issues carrying that label. */
  lemma SingleNameSelector(labels: seq<string>, a: string)
    requires Separator !in a
    ensures HasLabels(labels, a) <==> a in labels
  {
    JoinThenSplit([a], Separator);
  }

  /** A selector naming two labels matches exactly the issues carrying both. */
  lemma TwoNameSelector(labels: seq<string>, a: string, b: string)
    requires Separator !in a && Separator !in b
    ensures HasLabels(labels, a + [Separator] + b) <==> a in labels && b in labels
  {
    JoinThenSplit([a, b], Separator);
    assert [a, b][1..] == [b];
  }

  /** Cases 2 to 5 of the collector's table-driven test: selectors the issue matches, in either order. */
  lemma MatchingTestCases()
    ensures HasLabels(["one", "two", "three"], "one")
    ensures HasLabels(["one", "two", "three"], "two")
    ensures HasLabels(["one", "two", "three"], "one,two")
    ensures HasLabels(["one", "two", "three"], "two,one")
  {
    var three := ["one", "two", "three"];
    SingleNameSelector(three, "one");
    SingleNameSelector(three, "two");
    assert "one,two" == "one" + [Separator] + "two";
    TwoNameSelector(three, "one", "two");
    assert "two,one" == "two" + [Separator] + "one";
    TwoNameSelector(three, "two", "one");
  }

  /** Cases 0, 1 and 6 of the collector's table-driven test: selectors naming a label the issue lacks. */
  lemma NonMatchingTestCases()
    ensures !HasLabels(["one"], "two")
    ensures !HasLabels(["one", "two", "three"], "four")
    ensures !HasLabels(["one", "two", "three"], "one,four")
  {
    var three := ["one", "two", "three"];
    SingleNameSelector(["one"], "two");
    SingleNameSelector(three, "four");
    assert "one,four" == "one" + [Separator] + "four";
    TwoNameSelector(three, "one", "four");
  }
}
