/**
 The SCIP symbol parser, against a printer for the symbol grammar. Strings are byte strings.
 */
module ScipSymbol {
  import opened Common

  const METHOD: char := 'm'

  /** A descriptor; the suffix is '/', '#', '.', ':', '!', METHOD, '[' for a type parameter or '(' for a parameter. */
  datatype Descriptor = Descriptor(name: string, suffix: char)

  datatype Symbol = Local | Global(scheme: string, package: string, descriptors: seq<Descriptor>)

  /** A symbol with its package's manager, name and version apart. */
  datatype Parts = Parts(scheme: string, manager: string, name: string, version: string, descriptors: seq<Descriptor>)

  function Joined(p: Parts): Symbol
  {
    Global(p.scheme, p.manager + " " + p.name + " " + p.version, p.descriptors)
  }

  // ---------------------------------------------------------------------------------------------
  // Escaped runs: a doubled character stands for itself, a single one ends the run

  function StartsWith(s: string, c: char): bool
  {
    s != "" && s[0] == c
  }

  /** The run before the first single c, with doubled ones made single, and what follows that c. */
  function Unescaped(s: string, c: char): Option<(string, string)>
    decreases |s|
  {
    if s == "" then None
    else if s[0] != c then
      match Unescaped(s[1..], c) case None => None case Some((f, rest)) => Some(([s[0]] + f, rest))
    else if StartsWith(s[1..], c) then
      match Unescaped(s[2..], c) case None => None case Some((f, rest)) => Some(([c] + f, rest))
    else Some(("", s[1..]))
  }

  function Escaped(f: string, c: char): string
  {
    if f == "" then ""
    else (if f[0] == c then [c, c] else [f[0]]) + Escaped(f[1..], c)
  }

  /** The loop both spaceField and the quoted identifier run. */
  method Unescape(s: string, c: char) returns (r: Option<(string, string)>)
    ensures r == Unescaped(s, c)
  {
    hide Unescaped;
    var b := "";
    var i := 0;
    assert s[0..] == s;
    assert Prepended(b, Unescaped(s, c)) == Unescaped(s, c) by {
      if Unescaped(s, c).Some? { assert b + Unescaped(s, c).value.0 == Unescaped(s, c).value.0; }
    }
    while i < |s|
      invariant 0 <= i <= |s|
      invariant Unescaped(s, c) == Prepended(b, Unescaped(s[i..], c))
      decreases |s| - i
    {
      UnescapedStep(s, i, c, b);
      if s[i] != c {
        b := b + [s[i]];
        i := i + 1;
        continue;
      }
      if i + 1 < |s| && s[i + 1] == c {
        b := b + [c];
        i := i + 2;
        continue;
      }
      return Some((b, s[i + 1..]));
    }
    NothingUnescaped(s[i..], c);
    return None;
  }

  lemma {:induction false} NothingUnescaped(s: string, c: char)
    requires s == ""
    ensures Unescaped(s, c).None?
  {
  }

  function Prepended(b: string, r: Option<(string, string)>): Option<(string, string)>
  {
    match r case None => None case Some((f, rest)) => Some((b + f, rest))
  }

  /** One round of the loop. */
  lemma {:induction false} UnescapedStep(s: string, i: nat, c: char, b: string)
    requires i < |s|
    ensures s[i] != c ==> Prepended(b, Unescaped(s[i..], c)) == Prepended(b + [s[i]], Unescaped(s[i + 1..], c))
    ensures s[i] == c && i + 1 < |s| && s[i + 1] == c ==> Prepended(b, Unescaped(s[i..], c)) == Prepended(b + [c], Unescaped(s[i + 2..], c))
    ensures s[i] == c && !(i + 1 < |s| && s[i + 1] == c) ==> Prepended(b, Unescaped(s[i..], c)) == Some((b, s[i + 1..]))
  {
    assert s[i..][1..] == s[i + 1..];
    if s[i] != c {
      var tail := Unescaped(s[i + 1..], c);
      if tail.Some? { assert (b + [s[i]]) + tail.value.0 == b + ([s[i]] + tail.value.0); }
    } else if i + 1 < |s| && s[i + 1] == c {
      assert s[i..][2..] == s[i + 2..];
      var tail := Unescaped(s[i + 2..], c);
      if tail.Some? { assert (b + [c]) + tail.value.0 == b + ([c] + tail.value.0); }
    } else {
      assert b + "" == b;
    }
  }

  /** Unescaping undoes escaping exactly when what follows the end does not start with the same character. */
  lemma {:induction false} UnescapedOfEscaped(f: string, c: char, rest: string)
    ensures Unescaped(Escaped(f, c) + [c] + rest, c) == Some((f, rest)) <==> !StartsWith(rest, c)
    ensures StartsWith(rest, c) ==> Unescaped(Escaped(f, c) + [c] + rest, c).None? || |Unescaped(Escaped(f, c) + [c] + rest, c).value.0| > |f|
  {
    var s := Escaped(f, c) + [c] + rest;
    if f == "" {
      assert s == [c] + rest && s[1..] == rest;
    } else {
      UnescapedOfEscaped(f[1..], c, rest);
      var tail := Escaped(f[1..], c) + [c] + rest;
      if f[0] == c {
        assert s == [c, c] + tail && s[2..] == tail;
      } else {
        assert s == [f[0]] + tail && s[1..] == tail;
      }
      assert f == [f[0]] + f[1..];
    }
  }

  /** What is unescaped is the only thing that escapes to it: the parser accepts no second spelling. */
  lemma {:induction false} UnescapedPlain(s: string, c: char)
    requires s != "" && s[0] != c && Unescaped(s, c).Some?
    requires Unescaped(s[1..], c).Some? ==>
      var (f, rest) := Unescaped(s[1..], c).value; s[1..] == Escaped(f, c) + [c] + rest && !StartsWith(rest, c)
    ensures var (f, rest) := Unescaped(s, c).value; s == Escaped(f, c) + [c] + rest && !StartsWith(rest, c)
  {
    var (f, rest) := Unescaped(s[1..], c).value;
    assert s == [s[0]] + s[1..] && ([s[0]] + f)[1..] == f;
  }

  lemma {:induction false} UnescapedDouble(s: string, c: char)
    requires s != "" && s[0] == c && StartsWith(s[1..], c) && Unescaped(s, c).Some?
    requires Unescaped(s[2..], c).Some? ==>
      var (f, rest) := Unescaped(s[2..], c).value; s[2..] == Escaped(f, c) + [c] + rest && !StartsWith(rest, c)
    ensures var (f, rest) := Unescaped(s, c).value; s == Escaped(f, c) + [c] + rest && !StartsWith(rest, c)
  {
    var (f, rest) := Unescaped(s[2..], c).value;
    assert s[1..][0] == s[1];
    assert s == [s[0], s[1]] + s[2..];
    assert ([c] + f)[1..] == f;
  }

  lemma {:induction false} EscapedOfUnescaped(s: string, c: char)
    ensures Unescaped(s, c).Some? ==>
      var (f, rest) := Unescaped(s, c).value; s == Escaped(f, c) + [c] + rest && !StartsWith(rest, c)
    decreases |s|
  {
    if s != "" {
      if s[0] != c {
        EscapedOfUnescaped(s[1..], c);
        if Unescaped(s, c).Some? { UnescapedPlain(s, c); }
      } else if StartsWith(s[1..], c) {
        EscapedOfUnescaped(s[2..], c);
        if Unescaped(s, c).Some? { UnescapedDouble(s, c); }
      }
    }
  }

  // ---------------------------------------------------------------------------------------------
  // Identifiers

  predicate SimpleChar(c: char)
  {
    c == '_' || c == '+' || c == '-' || c == '$' || 'a' <= c <= 'z' || 'A' <= c <= 'Z' || '0' <= c <= '9'
  }

  /** The length of the leading run of simple characters. */
  function SimpleRun(s: string): (n: nat)
    ensures n <= |s|
  {
    if s == "" || !SimpleChar(s[0]) then 0 else 1 + SimpleRun(s[1..])
  }

  function Identifier(s: string): Option<(string, string)>
  {
    if StartsWith(s, '`') then
      match Unescaped(s[1..], '`')
      case None => None
      case Some((name, rest)) => if name == "" then None else Some((name, rest))
    else if SimpleRun(s) == 0 then None
    else Some((s[..SimpleRun(s)], s[SimpleRun(s)..]))
  }

  method ReadIdentifier(s: string) returns (r: Option<(string, string)>)
    ensures r == Identifier(s)
  {
    if StartsWith(s, '`') {
      var quoted := Unescape(s[1..], '`');
      if quoted.None? || quoted.value.0 == "" { return None; }
      return quoted;
    }
    var i := 0;
    while i < |s| && SimpleChar(s[i])
      invariant 0 <= i <= |s|
      invariant SimpleRun(s) == i + SimpleRun(s[i..])
    {
      assert s[i..][1..] == s[i + 1..];
      i := i + 1;
    }
    if i == 0 { return None; }
    return Some((s[..i], s[i..]));
  }

  predicate Simple(name: string)
  {
    name != "" && forall i :: 0 <= i < |name| ==> SimpleChar(name[i])
  }

  function PrintName(name: string): string
  {
    if Simple(name) then name else "`" + Escaped(name, '`') + "`"
  }

  lemma {:induction false} SimpleRunOf(name: string, rest: string)
    requires forall i :: 0 <= i < |name| ==> SimpleChar(name[i])
    requires rest == "" || !SimpleChar(rest[0])
    ensures SimpleRun(name + rest) == |name|
  {
    if name != "" {
      assert (name + rest)[1..] == name[1..] + rest;
      SimpleRunOf(name[1..], rest);
    } else {
      assert name + rest == rest;
    }
  }

  lemma {:induction false} SimpleRunIsSimple(s: string)
    ensures forall i :: 0 <= i < SimpleRun(s) ==> SimpleChar(s[i])
    ensures SimpleRun(s) < |s| ==> !SimpleChar(s[SimpleRun(s)])
  {
    if s != "" && SimpleChar(s[0]) {
      SimpleRunIsSimple(s[1..]);
      forall i | 0 <= i < SimpleRun(s) ensures SimpleChar(s[i]) {
        assert i > 0 ==> s[i] == s[1..][i - 1];
      }
    }
  }

  /** Reading a printed name gives it back whenever the next character could not continue it. */
  lemma {:induction false} IdentifierOfPrinted(name: string, rest: string)
    requires name != "" && (rest == "" || (!SimpleChar(rest[0]) && rest[0] != '`'))
    ensures Identifier(PrintName(name) + rest) == Some((name, rest))
  {
    hide SimpleRun, Unescaped, Escaped;
    var s := PrintName(name) + rest;
    if Simple(name) {
      assert s[0] == name[0] != '`';
      SimpleRunOf(name, rest);
      assert s[..|name|] == name && s[|name|..] == rest;
    } else {
      UnescapedOfEscaped(name, '`', rest);
      assert s[0] == '`' && s[1..] == Escaped(name, '`') + ['`'] + rest;
    }
  }

  // ---------------------------------------------------------------------------------------------
  // Descriptors

  /** strings.Index(s, ")."). */
  function MethodEnd(s: string): (i: Option<nat>)
    ensures i.Some? ==> i.value + 2 <= |s| && s[i.value] == ')' && s[i.value + 1] == '.'
    ensures i.Some? ==> forall k :: 0 <= k < i.value ==> !(s[k] == ')' && s[k + 1] == '.')
    ensures i.None? ==> forall k :: 0 <= k < |s| - 1 ==> !(s[k] == ')' && s[k + 1] == '.')
  {
    if |s| < 2 then None
    else if s[0] == ')' && s[1] == '.' then Some(0)
    else
      var rest := MethodEnd(s[1..]);
      assert forall k :: 1 <= k < |s| - 1 ==> s[k] == s[1..][k - 1] && s[k + 1] == s[1..][k];
      if rest.None? then None else Some(rest.value + 1)
  }

  predicate PlainSuffix(c: char)
  {
    c == '/' || c == '#' || c == '.' || c == ':' || c == '!'
  }

  /** One descriptor and what follows it. */
  function DescriptorAt(s: string): (r: Option<(Descriptor, string)>)
    requires s != ""
    ensures r.Some? ==> |r.value.1| < |s|
  {
    if s[0] == '[' || s[0] == '(' then
      var close := if s[0] == '[' then ']' else ')';
      match Identifier(s[1..])
      case None => None
      case Some((name, rest)) =>
        IdentifierConsumes(s[1..]);
        if StartsWith(rest, close) then Some((Descriptor(name, s[0]), rest[1..])) else None
    else
      match Identifier(s)
      case None => None
      case Some((name, rest)) =>
        IdentifierConsumes(s);
        if rest == "" then None
        else if PlainSuffix(rest[0]) then Some((Descriptor(name, rest[0]), rest[1..]))
        else if rest[0] == '(' then
          match MethodEnd(rest)
          case None => None
          case Some(end) => Some((Descriptor(name, METHOD), rest[end + 2..]))
        else None
  }

  lemma {:induction false} IdentifierConsumes(s: string)
    ensures Identifier(s).Some? ==> |Identifier(s).value.1| < |s| && Identifier(s).value.0 != ""
  {
    if StartsWith(s, '`') {
      EscapedOfUnescaped(s[1..], '`');
    }
  }

  function Descriptors(s: string): Option<seq<Descriptor>>
    decreases |s|
  {
    if s == "" then Some([])
    else match DescriptorAt(s)
      case None => None
      case Some((d, rest)) =>
        match Descriptors(rest) case None => None case Some(ds) => Some([d] + ds)
  }

  method ReadDescriptor(s: string) returns (r: Option<(Descriptor, string)>)
    requires s != ""
    ensures r == DescriptorAt(s)
  {
    if s[0] == '[' || s[0] == '(' {
      var close := if s[0] == '[' then ']' else ')';
      var id := ReadIdentifier(s[1..]);
      if id.None? || !StartsWith(id.value.1, close) { return None; }
      return Some((Descriptor(id.value.0, s[0]), id.value.1[1..]));
    }
    var id := ReadIdentifier(s);
    if id.None? || id.value.1 == "" { return None; }
    var (name, rest) := id.value;
    if PlainSuffix(rest[0]) { return Some((Descriptor(name, rest[0]), rest[1..])); }
    if rest[0] == '(' {
      var end := MethodEnd(rest);
      if end.None? { return None; }
      return Some((Descriptor(name, METHOD), rest[end.value + 2..]));
    }
    return None;
  }

  /** Printing a descriptor; `mark` is a method's disambiguator. */
  function PrintDescriptor(d: Descriptor, mark: string): string
  {
    if d.suffix == '[' then "[" + PrintName(d.name) + "]"
    else if d.suffix == '(' then "(" + PrintName(d.name) + ")"
    else if d.suffix == METHOD then PrintName(d.name) + "(" + mark + ")."
    else PrintName(d.name) + [d.suffix]
  }

  /** A descriptor the grammar has, and a disambiguator of simple characters. */
  predicate Printable(d: Descriptor, mark: string)
  {
    && d.name != "" && (PlainSuffix(d.suffix) || d.suffix == METHOD || d.suffix == '[' || d.suffix == '(')
    && forall i :: 0 <= i < |mark| ==> SimpleChar(mark[i])
  }

  lemma {:induction false} NameStart(name: string)
    requires name != ""
    ensures PrintName(name) != "" && (SimpleChar(PrintName(name)[0]) || PrintName(name)[0] == '`')
  {
  }

  lemma {:induction false} MethodEndOf(mark: string, rest: string)
    requires forall i :: 0 <= i < |mark| ==> SimpleChar(mark[i])
    ensures MethodEnd("(" + mark + ")." + rest) == Some(|mark| + 1)
  {
    var s := "(" + mark + ")." + rest;
    assert s[|mark| + 1] == ')' && s[|mark| + 2] == '.';
    forall k | 0 <= k < |mark| + 1 ensures s[k] != ')' {
      assert k > 0 ==> s[k] == mark[k - 1];
    }
  }

  /** Parsing a printed descriptor gives it back, without its disambiguator, whatever follows. */
  lemma {:induction false} DescriptorOfPrinted(d: Descriptor, mark: string, rest: string)
    requires Printable(d, mark)
    ensures PrintDescriptor(d, mark) != ""
    ensures DescriptorAt(PrintDescriptor(d, mark) + rest) == Some((d, rest))
  {
    hide Unescaped, Escaped, SimpleRun, Identifier, PrintName, MethodEnd, Simple;
    var name := PrintName(d.name);
    NameStart(d.name);
    var s := PrintDescriptor(d, mark) + rest;
    if d.suffix == '[' {
      IdentifierOfPrinted(d.name, "]" + rest);
      assert s[1..] == name + ("]" + rest);
    } else if d.suffix == '(' {
      IdentifierOfPrinted(d.name, ")" + rest);
      assert s[1..] == name + (")" + rest);
    } else if d.suffix == METHOD {
      var tail := "(" + mark + ")." + rest;
      IdentifierOfPrinted(d.name, tail);
      assert s == name + tail && s[0] == name[0];
      MethodEndOf(mark, rest);
      assert tail[|mark| + 3..] == rest;
    } else {
      var tail := [d.suffix] + rest;
      IdentifierOfPrinted(d.name, tail);
      assert s == name + tail && s[0] == name[0];
      assert tail[1..] == rest;
    }
  }

  function PrintDescriptors(ds: seq<Descriptor>, marks: seq<string>): string
    requires |ds| == |marks|
  {
    if ds == [] then "" else PrintDescriptor(ds[0], marks[0]) + PrintDescriptors(ds[1..], marks[1..])
  }

  ghost predicate AllPrintable(ds: seq<Descriptor>, marks: seq<string>)
  {
    |ds| == |marks| && forall i :: 0 <= i < |ds| ==> Printable(ds[i], marks[i])
  }

  lemma {:induction false} DescriptorsOfPrinted(ds: seq<Descriptor>, marks: seq<string>)
    requires AllPrintable(ds, marks)
    ensures Descriptors(PrintDescriptors(ds, marks)) == Some(ds)
  {
    hide DescriptorAt, PrintDescriptor, Printable;
    if ds != [] {
      DescriptorOfPrinted(ds[0], marks[0], PrintDescriptors(ds[1..], marks[1..]));
      DescriptorsOfPrinted(ds[1..], marks[1..]);
      assert ds == [ds[0]] + ds[1..];
    }
  }

  // ---------------------------------------------------------------------------------------------
  // Symbols

  predicate IsLocal(s: string)
  {
    "local " <= s
  }

  function ParseParts(s: string): Option<Parts>
  {
    match Unescaped(s, ' ')
    case None => None
    case Some((scheme, r1)) =>
      match Unescaped(r1, ' ')
      case None => None
      case Some((manager, r2)) =>
        match Unescaped(r2, ' ')
        case None => None
        case Some((name, r3)) =>
          match Unescaped(r3, ' ')
          case None => None
          case Some((version, r4)) =>
            match Descriptors(r4)
            case None => None
            case Some(ds) => if ds == [] then None else Some(Parts(scheme, manager, name, version, ds))
  }

  function Parsed(s: string): Option<Symbol>
  {
    if IsLocal(s) then Some(Local)
    else match ParseParts(s) case None => None case Some(p) => Some(Joined(p))
  }

  method ParseSymbol(s: string) returns (sym: Option<Symbol>)
    ensures sym == Parsed(s)
  {
    hide Unescaped, DescriptorAt;
    if "local " <= s { return Some(Local); }
    var f0 := Unescape(s, ' ');
    if f0.None? { return None; }
    var f1 := Unescape(f0.value.1, ' ');
    if f1.None? { return None; }
    var f2 := Unescape(f1.value.1, ' ');
    if f2.None? { return None; }
    var f3 := Unescape(f2.value.1, ' ');
    if f3.None? { return None; }
    var rest := f3.value.1;
    ghost var text := rest;
    var ds: seq<Descriptor> := [];
    assert Descriptors(text).Some? ==> ds + Descriptors(text).value == Descriptors(text).value;
    while rest != ""
      invariant Descriptors(text) == match Descriptors(rest) case None => None case Some(more) => Some(ds + more)
      decreases |rest|
    {
      var d := ReadDescriptor(rest);
      if d.None? { return None; }
      ghost var more := Descriptors(d.value.1);
      assert more.Some? ==> (ds + [d.value.0]) + more.value == ds + ([d.value.0] + more.value);
      ds := ds + [d.value.0];
      rest := d.value.1;
    }
    assert ds + [] == ds;
    if ds == [] { return None; }
    return Some(Global(f0.value.0, f1.value.0 + " " + f2.value.0 + " " + f3.value.0, ds));
  }

  function PrintField(f: string): string
  {
    Escaped(f, ' ') + " "
  }

  function PrintParts(p: Parts, marks: seq<string>): string
    requires |p.descriptors| == |marks|
  {
    PrintField(p.scheme) + (PrintField(p.manager) + (PrintField(p.name) + (PrintField(p.version) + PrintDescriptors(p.descriptors, marks))))
  }

  /** A field the grammar can carry after another one. */
  predicate Carried(f: string)
  {
    f != "" && f[0] != ' '
  }

  lemma {:induction false} FieldStart(f: string, rest: string)
    ensures StartsWith(PrintField(f) + rest, ' ') <==> !Carried(f)
  {
    if f != "" { assert Escaped(f, ' ')[0] == f[0]; }
  }

  lemma {:induction false} FieldOfPrinted(f: string, rest: string)
    ensures Unescaped(PrintField(f) + rest, ' ') == Some((f, rest)) <==> !StartsWith(rest, ' ')
    ensures StartsWith(rest, ' ') ==> Unescaped(PrintField(f) + rest, ' ').None? || Unescaped(PrintField(f) + rest, ' ').value.0 != f
  {
    UnescapedOfEscaped(f, ' ', rest);
    assert PrintField(f) + rest == Escaped(f, ' ') + [' '] + rest;
  }

  lemma {:induction false} DescriptorsStart(ds: seq<Descriptor>, marks: seq<string>)
    requires AllPrintable(ds, marks)
    ensures !StartsWith(PrintDescriptors(ds, marks), ' ')
  {
    if ds != [] {
      NameStart(ds[0].name);
      assert Printable(ds[0], marks[0]);
      assert PrintDescriptors(ds, marks)[0] == PrintDescriptor(ds[0], marks[0])[0];
    }
  }

  /**
   The parser undoes the printer, part by part, exactly when manager, name and version are neither empty nor start with a
   space.
   */
  lemma {:induction false} PartsOfPrinted(p: Parts, marks: seq<string>)
    requires AllPrintable(p.descriptors, marks) && p.descriptors != []
    ensures ParseParts(PrintParts(p, marks)) == Some(p) <==> Carried(p.manager) && Carried(p.name) && Carried(p.version)
  {
    hide Unescaped, Escaped, PrintField, Descriptors, PrintDescriptors;
    var t4 := PrintDescriptors(p.descriptors, marks);
    var t3 := PrintField(p.version) + t4;
    var t2 := PrintField(p.name) + t3;
    var t1 := PrintField(p.manager) + t2;
    DescriptorsOfPrinted(p.descriptors, marks);
    DescriptorsStart(p.descriptors, marks);
    FieldStart(p.manager, t2);
    FieldStart(p.name, t3);
    FieldStart(p.version, t4);
    FieldOfPrinted(p.scheme, t1);
    FieldOfPrinted(p.manager, t2);
    FieldOfPrinted(p.name, t3);
    FieldOfPrinted(p.version, t4);
  }

  /**
   Parsing undoes printing: a symbol whose fields can be carried and whose printed form is not taken for a local one comes
   back with its package joined and its disambiguators dropped.
   */
  lemma {:induction false} SymbolOfPrinted(p: Parts, marks: seq<string>)
    requires AllPrintable(p.descriptors, marks) && p.descriptors != []
    requires Carried(p.manager) && Carried(p.name) && Carried(p.version)
    ensures Parsed(PrintParts(p, marks)) == if IsLocal(PrintParts(p, marks)) then Some(Local) else Some(Joined(p))
  {
    PartsOfPrinted(p, marks);
  }

  /** The printed form is taken for a local symbol exactly when the scheme is "local" or starts with "local ". */
  lemma {:induction false} LocalIffScheme(p: Parts, marks: seq<string>)
    requires AllPrintable(p.descriptors, marks)
    ensures IsLocal(PrintParts(p, marks)) <==> p.scheme == "local" || "local " <= p.scheme
  {
    var rest := PrintField(p.manager) + (PrintField(p.name) + (PrintField(p.version) + PrintDescriptors(p.descriptors, marks)));
    EscapedPrefix(p.scheme, "local", rest);
  }

  /** Escaping leaves a word without spaces alone, so a printed field starts with it and a space exactly when the field is it, or starts so. */
  lemma {:induction false} EscapedPrefix(f: string, word: string, rest: string)
    requires ' ' !in word
    ensures word + " " <= PrintField(f) + rest <==> f == word || word + " " <= f
  {
    var s := PrintField(f) + rest;
    if word == "" {
      assert " " <= s <==> s[0] == ' ';
      if f != "" { assert s[0] == f[0]; }
    } else if f == "" {
      assert s[0] == ' ' && (word + " ")[0] == word[0];
    } else {
      EscapedPrefix(f[1..], word[1..], rest);
      assert (word + " ")[0] == word[0] && (word + " ")[1..] == word[1..] + " ";
      if f[0] == ' ' {
        assert s[0] == ' ';
      } else {
        assert s == [f[0]] + (PrintField(f[1..]) + rest);
        assert s[1..] == PrintField(f[1..]) + rest;
      }
    }
  }

  /** Fields a parse finds after another one can always be carried. */
  lemma {:induction false} ParsedFieldIsCarried(s: string)
    requires Unescaped(s, ' ').Some? && !StartsWith(s, ' ')
    ensures Carried(Unescaped(s, ' ').value.0)
  {
  }

  lemma {:induction false} ParsedDescriptorIsPrintable(s: string)
    requires s != "" && DescriptorAt(s).Some?
    ensures Printable(DescriptorAt(s).value.0, "")
  {
    IdentifierConsumes(s);
    IdentifierConsumes(s[1..]);
  }

  lemma {:induction false} ParsedDescriptorsArePrintable(s: string)
    requires Descriptors(s).Some?
    ensures AllPrintable(Descriptors(s).value, Blanks(|Descriptors(s).value|))
    decreases |s|
  {
    if s != "" {
      ParsedDescriptorIsPrintable(s);
      ParsedDescriptorsArePrintable(DescriptorAt(s).value.1);
    }
  }

  /** No disambiguators. */
  function Blanks(n: nat): seq<string>
  {
    seq(n, _ => "")
  }

  /**
   Everything the parser accepts is in the printer's range up to disambiguators and quoting: printing what was parsed and
   parsing again gives the same symbol.
   */
  lemma {:induction false} ParsedReprints(s: string)
    requires !IsLocal(s) && ParseParts(s).Some?
    ensures var p := ParseParts(s).value; var text := PrintParts(p, Blanks(|p.descriptors|));
      Parsed(text) == Parsed(s) && ParseParts(text) == Some(p)
  {
    hide Escaped, Descriptors, DescriptorAt, PrintField, Blanks, PrintDescriptors;
    var p := ParseParts(s).value;
    var marks := Blanks(|p.descriptors|);
    var r1 := Unescaped(s, ' ').value.1;
    var r2 := Unescaped(r1, ' ').value.1;
    var r3 := Unescaped(r2, ' ').value.1;
    EscapedOfUnescaped(s, ' ');
    EscapedOfUnescaped(r1, ' ');
    EscapedOfUnescaped(r2, ' ');
    ParsedFieldIsCarried(r1);
    ParsedFieldIsCarried(r2);
    ParsedFieldIsCarried(r3);
    ParsedDescriptorsArePrintable(Unescaped(r3, ' ').value.1);
    PartsOfPrinted(p, marks);
    LocalIffScheme(p, marks);
    FieldIsPrefix(s);
    EscapedPrefix(p.scheme, "local", r1);
  }

  lemma {:induction false} FieldIsPrefix(s: string)
    requires Unescaped(s, ' ').Some?
    ensures s == PrintField(Unescaped(s, ' ').value.0) + Unescaped(s, ' ').value.1
  {
    EscapedOfUnescaped(s, ' ');
  }
}
