/**
  The inline-style parser both containers use to turn the widget's `style`
  property, a CSS declaration list such as "background-color: red; width: 10px",
  into the key/value object handed to the presentational component.

  The style is split on ";" and the segments folded into one object: each
  segment is split on ":", only one that yields exactly two parts is kept, its
  trimmed name is camel-cased (every "-x" becomes "X") and its value is
  trimmed. The string operations JavaScript supplies (`split`, `trim`, the
  global regular-expression `replace`) are written out below.
 */
module StyleParser {
  import opened Wrappers

  // ---------------------------------------------------------------------------
  // String.prototype.split with a one-character separator
  // ---------------------------------------------------------------------------

  /** The parts joined back together, `sep` between each two: `parts.join(sep)`. */
  function Join(parts: seq<string>, sep: char): string
    requires |parts| >= 1
  {
    if |parts| == 1 then parts[0] else parts[0] + [sep] + Join(parts[1..], sep)
  }

  /** How many times `c` occurs in `s`. */
  function Occurrences(s: string, c: char): nat {
    if s == [] then 0 else (if s[0] == c then 1 else 0) + Occurrences(s[1..], c)
  }

  lemma {:induction false} OccurrencesAbsent(s: string, c: char)
    requires c !in s
    ensures Occurrences(s, c) == 0
  {
    if s != [] {
      OccurrencesAbsent(s[1..], c);
    }
  }

  /**
    `s.split(sep)`: the maximal pieces of `s` between occurrences of `sep`.
    There is always one more piece than there are separators, so the empty
    string splits into one empty piece.
   */
  function Split(s: string, sep: char): (parts: seq<string>)
    ensures |parts| == Occurrences(s, sep) + 1
    ensures forall i :: 0 <= i < |parts| ==> sep !in parts[i]
  {
    if s == [] then [""]
    else
      var rest := Split(s[1..], sep);
      assert s == [s[0]] + s[1..];
      if s[0] == sep then [""] + rest
      else [[s[0]] + rest[0]] + rest[1..]
  }

  /** Joining the pieces gives the string back. */
  lemma {:induction false} JoinSplit(s: string, sep: char)
    ensures Join(Split(s, sep), sep) == s
  {
    if s != [] {
      JoinSplit(s[1..], sep);
      var rest := Split(s[1..], sep);
      assert s == [s[0]] + s[1..];
      if s[0] == sep {
        var parts := [""] + rest;
        assert Split(s, sep) == parts;
        assert parts[1..] == rest;
        assert Join(parts, sep) == [sep] + s[1..];
      } else if |rest| == 1 {
        assert Split(s, sep) == [[s[0]] + rest[0]];
        assert Join(rest, sep) == rest[0];
      } else {
        var parts := [[s[0]] + rest[0]] + rest[1..];
        assert Split(s, sep) == parts;
        assert parts[1..] == rest[1..];
        assert Join(rest, sep) == rest[0] + [sep] + Join(rest[1..], sep);
        assert Join(parts, sep) == [s[0]] + (rest[0] + [sep] + Join(rest[1..], sep));
      }
    }
  }


  /** A character absent from the string is absent from every piece. */
  lemma {:induction false} SplitAbsent(s: string, sep: char, c: char)
    requires c !in s
    ensures forall i :: 0 <= i < |Split(s, sep)| ==> c !in Split(s, sep)[i]
  {
    if s != [] {
      SplitAbsent(s[1..], sep, c);
    }
  }

  /** Joining pieces free of the separator and splitting again gives the pieces back. */
  lemma {:induction false} SplitJoin(parts: seq<string>, sep: char)
    requires |parts| >= 1
    requires forall i :: 0 <= i < |parts| ==> sep !in parts[i]
    ensures Split(Join(parts, sep), sep) == parts
  {
    if |parts| == 1 {
      SplitFree(parts[0], sep);
    } else {
      var tail := Join(parts[1..], sep);
      SplitJoin(parts[1..], sep);
      SplitPrefix(parts[0], tail, sep);
    }
  }

  /** A string without the separator is a single piece. */
  lemma {:induction false} SplitFree(s: string, sep: char)
    requires sep !in s
    ensures Split(s, sep) == [s]
  {
    if s != [] {
      SplitFree(s[1..], sep);
      assert [s[0]] + s[1..] == s;
    }
  }

  /** A separator-free head followed by the separator becomes a piece of its own. */
  lemma {:induction false} SplitPrefix(head: string, tail: string, sep: char)
    requires sep !in head
    ensures Split(head + [sep] + tail, sep) == [head] + Split(tail, sep)
  {
    if head == [] {
      assert head + [sep] + tail == [sep] + tail;
      assert ([sep] + tail)[1..] == tail;
    } else {
      var s := head + [sep] + tail;
      assert s[1..] == head[1..] + [sep] + tail;
      SplitPrefix(head[1..], tail, sep);
      assert [head[0]] + head[1..] == head;
    }
  }

  lemma {:induction false} JoinAppend(a: seq<string>, b: seq<string>, sep: char)
    requires |a| >= 1 && |b| >= 1
    ensures Join(a + b, sep) == Join(a, sep) + [sep] + Join(b, sep)
  {
    if |a| == 1 {
      assert (a + b)[1..] == b;
    } else {
      assert (a + b)[1..] == a[1..] + b;
      JoinAppend(a[1..], b, sep);
    }
  }

  /** Splitting distributes over a separator: the pieces of `a` followed by those of `b`. */
  lemma SplitConcat(a: string, b: string, sep: char)
    ensures Split(a + [sep] + b, sep) == Split(a, sep) + Split(b, sep)
  {
    var parts := Split(a, sep) + Split(b, sep);
    JoinSplit(a, sep);
    JoinSplit(b, sep);
    JoinAppend(Split(a, sep), Split(b, sep), sep);
    forall i | 0 <= i < |parts| ensures sep !in parts[i] {
      if i >= |Split(a, sep)| {
        assert parts[i] == Split(b, sep)[i - |Split(a, sep)|];
      }
    }
    SplitJoin(parts, sep);
  }

  /** Three separator-free pieces joined by the separator split back into those pieces. */
  lemma SplitThree(a: string, b: string, c: string, sep: char)
    requires sep !in a && sep !in b && sep !in c
    ensures Split(a + [sep] + b + [sep] + c, sep) == [a, b, c]
  {
    var bc := b + [sep] + c;
    assert Split(bc, sep) == [b, c] by {
      SplitFree(c, sep);
      SplitPrefix(b, c, sep);
    }
    var abc := a + [sep] + bc;
    assert a + [sep] + b + [sep] + c == abc;
    assert Split(abc, sep) == [a] + [b, c] by {
      SplitPrefix(a, bc, sep);
    }
    assert [a] + [b, c] == [a, b, c];
  }



  // ---------------------------------------------------------------------------
  // String.prototype.trim
  // ---------------------------------------------------------------------------

  /** ECMAScript line terminators: what `.` in a regular expression does not match. */
  predicate IsLineTerminator(c: char) {
    c == '\n' || c == '\r' || c == '\U{2028}' || c == '\U{2029}'
  }

  /** The white space ECMAScript names outside the line terminators: tab, vertical tab, form feed, the space separators and the byte order mark. */
  predicate IsSpace(c: char) {
    || c == '\t' || c == '\U{0B}' || c == '\U{0C}' || c == ' ' || c == '\U{A0}' || c == '\U{FEFF}'
    || c == '\U{1680}' || ('\U{2000}' <= c <= '\U{200A}') || c == '\U{202F}' || c == '\U{205F}' || c == '\U{3000}'
  }

  /** ECMAScript white space and line terminators: what `trim` removes. */
  predicate IsWhitespace(c: char) {
    IsLineTerminator(c) || IsSpace(c)
  }

  /** The length of the white-space prefix of `s`. */
  function LeadingSpace(s: string): (n: nat)
    ensures n <= |s|
    ensures forall k :: 0 <= k < n ==> IsWhitespace(s[k])
    ensures n < |s| ==> !IsWhitespace(s[n])
  {
    if s != [] && IsWhitespace(s[0]) then 1 + LeadingSpace(s[1..]) else 0
  }

  /** The length of the white-space suffix of `s`. */
  function TrailingSpace(s: string): (n: nat)
    ensures n <= |s|
    ensures forall k :: |s| - n <= k < |s| ==> IsWhitespace(s[k])
    ensures n < |s| ==> !IsWhitespace(s[|s| - n - 1])
  {
    if s != [] && IsWhitespace(s[|s| - 1]) then 1 + TrailingSpace(s[..|s| - 1]) else 0
  }

  /**
    `s.trim()`: `s` without its white-space prefix and suffix. The result is the
    part of `s` that starts after the white-space prefix, everything after it
    is white space, and the result neither starts nor ends with white space.
   */
  function Trim(s: string): (r: string)
    ensures |r| <= |s|
    ensures r != [] ==> !IsWhitespace(r[0]) && !IsWhitespace(r[|r| - 1])
    ensures var i := LeadingSpace(s);
            i + |r| <= |s| && s[i..i + |r|] == r && forall k :: i + |r| <= k < |s| ==> IsWhitespace(s[k])
  {
    var i := LeadingSpace(s);
    var t := s[i..];
    var j := TrailingSpace(t);
    var r := t[..|t| - j];
    assert s[i..i + |r|] == r;
    forall k | i + |r| <= k < |s|
      ensures IsWhitespace(s[k])
    {
      assert s[k] == t[k - i];
    }
    assert r != [] ==> r[0] == t[0] && r[|r| - 1] == t[|t| - j - 1];
    r
  }

  /** Trimming twice is trimming once. */
  lemma TrimIdempotent(s: string)
    ensures Trim(Trim(s)) == Trim(s)
  {
    var r := Trim(s);
    assert LeadingSpace(r) == 0;
    assert TrailingSpace(r) == 0;
    assert r[0..] == r;
    assert r[..|r|] == r;
  }

  // ---------------------------------------------------------------------------
  // Camel-casing a property name: each hyphen and the character after it
  // become that character in upper case
  // ---------------------------------------------------------------------------

  /** Upper-case mapping of the ASCII letters; every other character is kept. */
  function ToUpper(c: char): char {
    if 'a' <= c <= 'z' then (c as int - 32) as char else c
  }

  /**
    The global replacement of `-.` by the upper-cased second character. The
    regular expression is scanned left to right and its matches do not
    overlap: a hyphen followed by any character but a line terminator is one
    match, and scanning resumes after it.
   */
  function CamelCase(s: string): (r: string)
    ensures |r| <= |s|
  {
    if |s| >= 2 && s[0] == '-' && !IsLineTerminator(s[1]) then [ToUpper(s[1])] + CamelCase(s[2..])
    else if s == [] then []
    else [s[0]] + CamelCase(s[1..])
  }

  /** A name without hyphens is left as it is. */
  lemma {:induction false} CamelCaseNoHyphen(s: string)
    requires '-' !in s
    ensures CamelCase(s) == s
  {
    if s != [] {
      CamelCaseNoHyphen(s[1..]);
      assert [s[0]] + s[1..] == s;
    }
  }

  /**
    In a name whose first hyphen is followed by `c`, that hyphen and `c` become
    the upper-cased `c`; the hyphen-free part before it is kept and the rest
    of the name is rewritten in turn.
   */
  lemma {:induction false} CamelCaseFirstHyphen(a: string, c: char, b: string)
    requires '-' !in a && !IsLineTerminator(c)
    ensures CamelCase(a + ['-', c] + b) == a + [ToUpper(c)] + CamelCase(b)
  {
    var s := a + ['-', c] + b;
    if a == [] {
      assert s == ['-', c] + b;
      assert s[2..] == b;
      assert CamelCase(s) == [ToUpper(c)] + CamelCase(b);
    } else {
      assert s[0] == a[0] && s[0] != '-';
      assert s[1..] == a[1..] + ['-', c] + b;
      assert CamelCase(s) == [a[0]] + CamelCase(s[1..]);
      CamelCaseFirstHyphen(a[1..], c, b);
      assert [a[0]] + (a[1..] + [ToUpper(c)] + CamelCase(b)) == a + [ToUpper(c)] + CamelCase(b);
    }
  }

  // ---------------------------------------------------------------------------
  // parseStyle
  // ---------------------------------------------------------------------------

  /** The property name of a `key: value` pair: trimmed, then camel-cased. */
  function PropertyName(key: string): string {
    CamelCase(Trim(key))
  }

  /** A `name: value` declaration, or None for a segment that is skipped. */
  type Decl = Option<(string, string)>

  /**
    The declaration a segment contributes, if any: `line.split(":")` must give
    exactly two parts, which is exactly when the segment holds one colon.
   */
  function Declaration(segment: string): (d: Decl)
    ensures d.Some? <==> Occurrences(segment, ':') == 1
  {
    var pair := Split(segment, ':');
    if |pair| == 2 then Some((PropertyName(pair[0]), Trim(pair[1]))) else None
  }

  /** The declaration of every segment, in order. */
  function Declarations(segments: seq<string>): (ds: seq<Decl>)
    ensures |ds| == |segments|
    ensures forall i :: 0 <= i < |segments| ==> ds[i] == Declaration(segments[i])
  {
    if segments == [] then [] else [Declaration(segments[0])] + Declarations(segments[1..])
  }

  lemma {:induction false} DeclarationsAppend(a: seq<string>, b: seq<string>)
    ensures Declarations(a + b) == Declarations(a) + Declarations(b)
  {
    if a == [] {
      assert a + b == b;
    } else {
      assert (a + b)[1..] == a[1..] + b;
      DeclarationsAppend(a[1..], b);
    }
  }


  /**
    Assigning `value` to the property `name` of a plain JavaScript object. Assigning a string
    to the key "__proto__" runs the prototype setter, which ignores anything
    that is not an object, so that one name never becomes a key.
   */
  function Assign(styleObject: map<string, string>, name: string, value: string): map<string, string> {
    if name == "__proto__" then styleObject else styleObject[name := value]
  }

  /** One step of the `reduce`: add the segment's declaration, if it has one. */
  function AddDeclaration(styleObject: map<string, string>, d: Decl): map<string, string> {
    match d
    case None => styleObject
    case Some((name, value)) => Assign(styleObject, name, value)
  }

  /** The `reduce` over the segments' declarations, left to right, from `styleObject`. */
  function Reduce(styleObject: map<string, string>, ds: seq<Decl>): map<string, string>
    decreases ds
  {
    if ds == [] then styleObject else Reduce(AddDeclaration(styleObject, ds[0]), ds[1..])
  }

  /** `parseStyle(style)`: the declarations of the `;`-separated segments, folded into one object. */
  function ParseStyle(style: string): map<string, string> {
    Reduce(map[], Declarations(Split(style, ';')))
  }

  // Reference reading: a name's value is that of the LAST segment declaring it.

  /** The value the last declaration of `name` gives it, searching from the end. */
  function LastDeclared(ds: seq<Decl>, name: string): Option<string>
  {
    if ds == [] then None
    else
      match ds[|ds| - 1]
      case Some((n, v)) =>
        if n == name then Some(v) else LastDeclared(ds[..|ds| - 1], name)
      case None => LastDeclared(ds[..|ds| - 1], name)
  }

  function Lookup(m: map<string, string>, k: string): Option<string> {
    if k in m then Some(m[k]) else None
  }

  lemma MapUnionAssoc(a: map<string, string>, b: map<string, string>, c: map<string, string>)
    ensures (a + b) + c == a + (b + c)
  {
  }

  lemma {:induction false} ReduceAppend(styleObject: map<string, string>, a: seq<Decl>, b: seq<Decl>)
    ensures Reduce(styleObject, a + b) == Reduce(Reduce(styleObject, a), b)
    decreases a
  {
    if a != [] {
      assert (a + b)[0] == a[0];
      assert (a + b)[1..] == a[1..] + b;
      ReduceAppend(AddDeclaration(styleObject, a[0]), a[1..], b);
    } else {
      assert a + b == b;
    }
  }

  /** The reduce from `styleObject` is `styleObject` overridden by the reduce from the empty object. */
  lemma {:induction false} ReduceFrom(styleObject: map<string, string>, ds: seq<Decl>)
    ensures Reduce(styleObject, ds) == styleObject + Reduce(map[], ds)
    decreases ds
  {
    if ds != [] {
      var d := ds[0];
      var rest := Reduce(map[], ds[1..]);
      ReduceFrom(AddDeclaration(styleObject, d), ds[1..]);
      ReduceFrom(AddDeclaration(map[], d), ds[1..]);
      assert AddDeclaration(styleObject, d) == styleObject + AddDeclaration(map[], d);
      MapUnionAssoc(styleObject, AddDeclaration(map[], d), rest);
    }
  }

  lemma {:induction false} ReduceLookup(styleObject: map<string, string>, ds: seq<Decl>, name: string)
    requires name !in styleObject
    ensures Lookup(Reduce(styleObject, ds), name)
         == if name == "__proto__" then None else LastDeclared(ds, name)
    decreases |ds|
  {
    if ds != [] {
      var n := |ds| - 1;
      var init, last := ds[..n], ds[n];
      assert ds == init + [last];
      ReduceAppend(styleObject, init, [last]);
      ReduceLookup(styleObject, init, name);
      assert [last][1..] == [];
    }
  }

  /**
    What parseStyle keeps: `name` is a key exactly when some segment declares
    it (and it is not "__proto__"), and its value is the trimmed value of the
    last such segment, so a later declaration overrides an earlier one.
   */
  lemma ParseStyleLookup(style: string, name: string)
    ensures Lookup(ParseStyle(style), name)
         == if name == "__proto__" then None else LastDeclared(Declarations(Split(style, ';')), name)
  {
    ReduceLookup(map[], Declarations(Split(style, ';')), name);
  }

  /**
    Segments are independent: the style of `a; b` is the style of `a` overridden
    by the style of `b`.
   */
  lemma ParseStyleConcat(a: string, b: string)
    ensures ParseStyle(a + ";" + b) == ParseStyle(a) + ParseStyle(b)
  {
    var da, db := Declarations(Split(a, ';')), Declarations(Split(b, ';'));
    assert a + ";" + b == a + [';'] + b;
    SplitConcat(a, b, ';');
    DeclarationsAppend(Split(a, ';'), Split(b, ';'));
    ReduceAppend(map[], da, db);
    ReduceFrom(ParseStyle(a), db);
  }

  /** A segment with no colon or with two or more is dropped and leaves the others as they are. */
  lemma ParseStyleSkipsMalformed(a: string, segment: string, b: string)
    requires ';' !in segment && Occurrences(segment, ':') != 1
    ensures ParseStyle(a + ";" + segment + ";" + b) == ParseStyle(a + ";" + b)
  {
    assert ParseStyle(segment) == map[] by {
      SplitFree(segment, ';');
      assert Declarations([segment]) == [None];
      assert Reduce(map[], [None]) == Reduce(map[], []);
    }
    var pa, pb := ParseStyle(a), ParseStyle(b);
    assert ParseStyle(a + ";" + segment) == pa by {
      ParseStyleConcat(a, segment);
      assert pa + map[] == pa;
    }
    assert ParseStyle(a + ";" + segment + ";" + b) == pa + pb by {
      ParseStyleConcat(a + ";" + segment, b);
    }
    ParseStyleConcat(a, b);
  }

  /** No colon anywhere, no key: in particular the default empty style gives the empty object. */
  lemma ParseStyleNoColon(style: string)
    requires ':' !in style
    ensures ParseStyle(style) == map[]
  {
    var segments := Split(style, ';');
    SplitAbsent(style, ';', ':');
    forall i | 0 <= i < |segments|
      ensures Declaration(segments[i]).None?
    {
      OccurrencesAbsent(segments[i], ':');
    }
    ReduceSkipped(Declarations(segments));
  }

  lemma {:induction false} ReduceSkipped(ds: seq<Decl>)
    requires forall i :: 0 <= i < |ds| ==> ds[i].None?
    ensures Reduce(map[], ds) == map[]
    decreases ds
  {
    if ds != [] {
      ReduceSkipped(ds[1..]);
    }
  }

  /** The empty style, the default of the `style` parameter, gives the empty object. */
  lemma ParseStyleEmpty()
    ensures ParseStyle("") == map[]
  {
    ParseStyleNoColon("");
  }

  /** A string that neither starts nor ends with white space is its own trim. */
  lemma TrimUntouched(s: string)
    requires s != [] ==> !IsWhitespace(s[0]) && !IsWhitespace(s[|s| - 1])
    ensures Trim(s) == s
  {
    assert LeadingSpace(s) == 0;
    assert s[0..] == s;
    assert TrailingSpace(s) == 0;
    assert s[..|s|] == s;
  }

  /** A single `key:value` declaration gives an object with that one property. */
  lemma ParseStyleOneDeclaration(key: string, value: string)
    requires ';' !in key && ';' !in value && ':' !in key && ':' !in value
    ensures ParseStyle(key + ":" + value) == Assign(map[], PropertyName(key), Trim(value))
  {
    var s := key + ":" + value;
    assert s == key + [':'] + value;
    SplitFree(s, ';');
    SplitPrefix(key, value, ':');
    SplitFree(value, ':');
    assert Declaration(s) == Some((PropertyName(key), Trim(value)));
    assert Declarations([s]) == [Declaration(s)];
    assert Reduce(map[], [Declaration(s)]) == Reduce(AddDeclaration(map[], Declaration(s)), []);
  }

  /** A name with one hyphen: "background-color" becomes "backgroundColor". */
  lemma PropertyNameOneHyphen(a: string, c: char, b: string)
    requires '-' !in a && '-' !in b && !IsLineTerminator(c)
    requires a != [] && !IsWhitespace(a[0])
    requires b != [] && !IsWhitespace(b[|b| - 1])
    ensures PropertyName(a + ['-', c] + b) == a + [ToUpper(c)] + b
  {
    var s := a + ['-', c] + b;
    assert s[0] == a[0] && s[|s| - 1] == b[|b| - 1];
    TrimUntouched(s);
    CamelCaseFirstHyphen(a, c, b);
    CamelCaseNoHyphen(b);
  }

}
