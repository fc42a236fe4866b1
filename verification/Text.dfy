/** The few string operations of Go's `strings` package that image references are taken apart with. */
module Text {

  predicate HasPrefix(s: string, prefix: string) {
    prefix <= s
  }

  predicate HasSuffix(s: string, suffix: string) {
    |suffix| <= |s| && s[|s| - |suffix|..] == suffix
  }

  /** `strings.Split` for a separator of one character: the fields between its occurrences. */
  function Split(s: string, sep: char): (fields: seq<string>)
    ensures fields != []
  {
    if s == "" then [""]
    else
      var rest := Split(s[1..], sep);
      if s[0] == sep then [""] + rest else [[s[0]] + rest[0]] + rest[1..]
  }

  function Join(fields: seq<string>, sep: char): string
    requires fields != []
  {
    if |fields| == 1 then fields[0] else fields[0] + [sep] + Join(fields[1..], sep)
  }

  /** Splitting loses nothing, and no field still holds a separator. */
  lemma {:induction false} SplitJoin(s: string, sep: char)
    ensures Join(Split(s, sep), sep) == s
    ensures forall i :: 0 <= i < |Split(s, sep)| ==> sep !in Split(s, sep)[i]
  {
    if s != "" {
      SplitJoin(s[1..], sep);
      var rest := Split(s[1..], sep);
      if s[0] == sep {
        assert ([""] + rest)[1..] == rest;
      } else {
        var first := [s[0]] + rest[0];
        assert Split(s, sep) == [first] + rest[1..];
        assert ([first] + rest[1..])[1..] == rest[1..];
      }
    }
  }

  /** The first field is the longest prefix without a separator. */
  lemma {:induction false} FirstField(s: string, sep: char)
    ensures var first := Split(s, sep)[0];
            && HasPrefix(s, first)
            && sep !in first
            && (first == s || s[|first|] == sep)
            && (first == s <==> |Split(s, sep)| == 1)
  {
    if s != "" {
      FirstField(s[1..], sep);
    }
  }

  /** Where a string is cut does not depend on what follows the first separator. */
  lemma {:induction false} FirstFieldOfAppend(p: string, sep: char, tail: string)
    ensures Split(p + [sep] + tail, sep)[0] == Split(p, sep)[0]
  {
    var s := p + [sep] + tail;
    if p == "" {
      assert s[0] == sep;
    } else {
      assert s[1..] == p[1..] + [sep] + tail;
      FirstFieldOfAppend(p[1..], sep, tail);
    }
  }

  /** A string built from a separator-free head and a tail splits into that head and the tail's fields. */
  lemma {:induction false} SplitAfterHead(head: string, sep: char, tail: string)
    requires sep !in head
    ensures Split(head + [sep] + tail, sep) == [head] + Split(tail, sep)
  {
    var s := head + [sep] + tail;
    if head == "" {
      assert s[0] == sep && s[1..] == tail;
    } else {
      assert s[1..] == head[1..] + [sep] + tail;
      SplitAfterHead(head[1..], sep, tail);
      assert [s[0]] + head[1..] == head;
    }
  }
}
