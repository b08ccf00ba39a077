/** `import_from_str`: an import path `pkg.module` or `pkg.module:attr` is
    checked against the path syntax and then resolved. The importable
    modules and their attributes are a parameter: a module that is absent
    stands for every way `import_module` can fail, an attribute that is
    absent for a failing `getattr`. */
module VankLoadModule {
  import opened Wrappers
  import opened Text

  predicate IsWordChar(c: char) { IsAsciiLetter(c) || IsDigit(c) || c == '_' }

  /** One module name: a letter, then letters, digits or `_`. */
  predicate IsSegment(s: string) {
    |s| > 0 && IsAsciiLetter(s[0]) && forall i :: 1 <= i < |s| ==> IsWordChar(s[i])
  }

  /** The attribute group: one or more letters, digits or `_`. */
  predicate IsAttr(s: string) {
    |s| > 0 && forall i :: 0 <= i < |s| ==> IsWordChar(s[i])
  }

  /** The module group: module names separated by single dots. */
  predicate IsModulePath(s: string) {
    var names := Split(s, ".");
    forall k :: 0 <= k < |names| ==> IsSegment(names[k])
  }

  /** The regular expression's `$` also matches before a final newline. */
  function DropFinalNewline(s: string): (r: string)
    ensures r == s || s == r + "\n"
  {
    if |s| > 0 && s[|s| - 1] == '\n' then s[..|s| - 1] else s
  }

  /** The match of `import_regex`: the module group and the optional attr
      group, or None when the text does not match. Neither group can hold
      a colon, so the first colon separates them. */
  function MatchPath(s: string): (r: Option<(string, Option<string>)>)
    ensures r.Some? ==> IsModulePath(r.value.0)
    ensures r.Some? && r.value.1.Some? ==> IsAttr(r.value.1.value) && DropFinalNewline(s) == r.value.0 + ":" + r.value.1.value
    ensures r.Some? && r.value.1.None? ==> DropFinalNewline(s) == r.value.0
  {
    var t := DropFinalNewline(s);
    match IndexOf(t, ":")
    case None => if IsModulePath(t) then Some((t, None)) else None
    case Some(i) =>
      assert OccursAt(t, ":", i);
      assert t == t[..i] + ":" + t[i + 1..];
      if IsModulePath(t[..i]) && IsAttr(t[i + 1..]) then Some((t[..i], Some(t[i + 1..]))) else None
  }

  /** The text of an import path: the names joined by dots, then `:attr`
      when there is an attribute. */
  function Render(names: seq<string>, attr: Option<string>): string {
    Join(names, ".") + (if attr.Some? then ":" + attr.value else "")
  }

  /** Every character of a valid path is a word character or a dot. */
  predicate PathChars(s: string) {
    forall i :: 0 <= i < |s| ==> IsWordChar(s[i]) || s[i] == '.'
  }

  lemma {:induction false} JoinPathChars(names: seq<string>)
    requires forall k :: 0 <= k < |names| ==> IsSegment(names[k])
    ensures PathChars(Join(names, "."))
    decreases |names|
  {
    if |names| > 1 {
      JoinPathChars(names[1..]);
      var rest := Join(names[1..], ".");
      var s := names[0] + "." + rest;
      forall i | 0 <= i < |s| ensures IsWordChar(s[i]) || s[i] == '.' {
        if i < |names[0]| {
          assert s[i] == names[0][i];
        } else if i > |names[0]| {
          assert s[i] == rest[i - |names[0]| - 1];
        }
      }
    }
  }

  /** The first occurrence of a character. */
  lemma IndexOfChar(s: string, c: char, i: nat)
    requires i < |s| && s[i] == c && forall j :: 0 <= j < i ==> s[j] != c
    ensures IndexOf(s, [c]) == Some(i)
  {
    assert OccursAt(s, [c], i) by { assert s[i..i + 1] == [c]; }
    var r := IndexOf(s, [c]);
    assert r.Some? && r.value <= i;
    assert s[r.value..r.value + 1][0] == s[r.value];
  }

  /** A character that does not occur is not found. */
  lemma NoChar(s: string, c: char)
    requires c !in s
    ensures IndexOf(s, [c]).None?
  {
    forall j: nat ensures !OccursAt(s, [c], j) {
      if j + 1 <= |s| {
        assert s[j..j + 1][0] == s[j];
      }
    }
    IndexOfContains(s, [c]);
  }

  /** Valid names hold no dot. */
  lemma NamesWithoutDot(names: seq<string>)
    requires forall k :: 0 <= k < |names| ==> IsSegment(names[k])
    ensures forall k :: 0 <= k < |names| ==> '.' !in names[k]
  {
    forall k | 0 <= k < |names| ensures '.' !in names[k] {
      forall i | 0 <= i < |names[k]| ensures names[k][i] != '.' {
        if i > 0 {
          assert IsWordChar(names[k][i]);
        }
      }
    }
  }

  /** Joined valid names form a module group with no colon and no
      newline. */
  lemma JoinedNames(names: seq<string>)
    requires |names| >= 1 && forall k :: 0 <= k < |names| ==> IsSegment(names[k])
    ensures IsModulePath(Join(names, "."))
    ensures ':' !in Join(names, ".") && '\n' !in Join(names, ".")
  {
    var path := Join(names, ".");
    JoinPathChars(names);
    assert ':' !in path && '\n' !in path by {
      forall i | 0 <= i < |path| ensures path[i] != ':' && path[i] != '\n' {
        assert IsWordChar(path[i]) || path[i] == '.';
      }
    }
    NamesWithoutDot(names);
    SplitJoin(names, '.');
  }

  /** Every path built from valid names and a valid attribute matches, and
      the groups are the joined names and the attribute. */
  lemma RenderMatches(names: seq<string>, attr: Option<string>)
    requires |names| >= 1 && forall k :: 0 <= k < |names| ==> IsSegment(names[k])
    requires attr.Some? ==> IsAttr(attr.value)
    ensures MatchPath(Render(names, attr)) == Some((Join(names, "."), attr))
  {
    JoinedNames(names);
    if attr.Some? {
      AppendAssoc(Join(names, "."), ":", attr.value);
      AttrMatches(Join(names, "."), attr.value);
    } else {
      AppendNil(Join(names, "."));
      ModuleMatches(Join(names, "."));
    }
  }

  /** A module group alone matches as itself. */
  lemma ModuleMatches(path: string)
    requires IsModulePath(path) && ':' !in path && '\n' !in path
    ensures MatchPath(path) == Some((path, None))
  {
    if |path| > 0 {
      assert path[|path| - 1] in path;
    }
    NoChar(path, ':');
  }

  /** A module group, a colon and an attribute match as those groups. */
  lemma AttrMatches(path: string, a: string)
    requires IsModulePath(path) && ':' !in path && IsAttr(a)
    ensures MatchPath(path + ":" + a) == Some((path, Some(a)))
  {
    var t := path + ":" + a;
    assert t[|t| - 1] == a[|a| - 1];
    forall j | 0 <= j < |path| ensures t[j] != ':' {
      assert t[j] == path[j];
    }
    IndexOfChar(t, ':', |path|);
    assert t[..|path|] == path && t[|path| + 1..] == a;
  }

  /** The bad grammar the framework's tests exercise: a module part with an
      empty first or last name, a colon with no attribute after it, or an
      attribute holding a dot. */
  predicate BadGrammar(m: string, attr: Option<string>) {
    (|m| > 0 && (m[0] == '.' || m[|m| - 1] == '.')) ||
    attr == Some("") ||
    (attr.Some? && '.' in attr.value)
  }

  /** Every path of that family is refused. */
  lemma BadGrammarRejected(m: string, attr: Option<string>)
    requires ':' !in m && '\n' !in m && BadGrammar(m, attr)
    ensures MatchPath(m + (if attr.Some? then ":" + attr.value else "")).None?
  {
    if attr.None? {
      assert m + "" == m;
      EmptySegmentRejected(m);
    } else if attr == Some("") {
      assert m + (":" + "") == m + ":";
      ColonWithoutAttrRejected(m);
    } else if '.' in attr.value {
      assert m + (":" + attr.value) == m + ":" + attr.value;
      AttrWithDotRejected(m, attr.value);
    } else {
      assert m + (":" + attr.value) == m + ":" + attr.value;
      EmptySegmentWithAttrRejected(m, attr.value);
    }
  }

  /** The paths the framework's tests reject, each an instance of the
      family above. */
  lemma RejectedPaths()
    ensures MatchPath("a.b.c.").None?
    ensures MatchPath(".a.b").None?
    ensures MatchPath("a.b.c:").None?
    ensures MatchPath("a.b.c:a.").None?
    ensures MatchPath("a.b.c.:a").None?
    ensures MatchPath(".a.b.c:a").None?
  {
    TrailingDotRejected();
    LeadingDotRejected();
    EmptyAttrRejected();
    DottedAttrRejected();
    DotBeforeColonRejected();
    LeadingDotWithAttrRejected();
  }

  // The six cases of `RejectedPaths`, one proof obligation each.

  lemma TrailingDotRejected()
    ensures MatchPath("a.b.c.").None?
  {
    NoChar("a.b.c.", ':');
    NoTrailingSegment("a.b.c.");
  }

  lemma LeadingDotRejected()
    ensures MatchPath(".a.b").None?
  {
    NoChar(".a.b", ':');
    NoLeadingSegment(".a.b");
  }

  lemma EmptyAttrRejected()
    ensures MatchPath("a.b.c:").None?
  {
    IndexOfChar("a.b.c:", ':', 5);
    assert "a.b.c:"[6..] == "";
  }

  lemma DottedAttrRejected()
    ensures MatchPath("a.b.c:a.").None?
  {
    assert "a.b.c:a." == "a.b.c" + ":" + "a.";
    assert ':' !in "a.b.c" by { assert forall j :: 0 <= j < 5 ==> "a.b.c"[j] != ':'; }
    assert "a."[1] == '.';
    AttrWithDotRejected("a.b.c", "a.");
  }

  lemma DotBeforeColonRejected()
    ensures MatchPath("a.b.c.:a").None?
  {
    IndexOfChar("a.b.c.:a", ':', 6);
    assert "a.b.c.:a"[..6] == "a.b.c.";
    NoTrailingSegment("a.b.c.");
  }

  lemma LeadingDotWithAttrRejected()
    ensures MatchPath(".a.b.c:a").None?
  {
    IndexOfChar(".a.b.c:a", ':', 6);
    assert ".a.b.c:a"[..6] == ".a.b.c";
    NoLeadingSegment(".a.b.c");
  }

  /** A module path that starts or ends with a dot fails the match: it has
      an empty module name. */
  lemma EmptySegmentRejected(m: string)
    requires ':' !in m && '\n' !in m && |m| > 0 && (m[0] == '.' || m[|m| - 1] == '.')
    ensures MatchPath(m).None?
  {
    if m[0] == '.' { NoLeadingSegment(m); } else { NoTrailingSegment(m); }
    assert m[|m| - 1] in m;
    NoChar(m, ':');
  }

  /** So does such a module part followed by `:` and any attribute. */
  lemma EmptySegmentWithAttrRejected(m: string, a: string)
    requires ':' !in m && |m| > 0 && (m[0] == '.' || m[|m| - 1] == '.')
    ensures MatchPath(m + ":" + a).None?
  {
    if m[0] == '.' { NoLeadingSegment(m); } else { NoTrailingSegment(m); }
    var s := m + ":" + a;
    var t := DropFinalNewline(s);
    assert |t| > |m| && t[..|m|] == m by {
      if t != s { assert s[|s| - 1] == '\n'; assert s[..|m|] == m; }
    }
    assert t[|m|] == ':';
    forall j | 0 <= j < |m| ensures t[j] != ':' {
      assert t[j] == m[j];
    }
    IndexOfChar(t, ':', |m|);
  }

  /** A colon with nothing after it fails the match: the attribute group
      needs a character. */
  lemma ColonWithoutAttrRejected(m: string)
    requires ':' !in m
    ensures MatchPath(m + ":").None?
  {
    var t := m + ":";
    assert DropFinalNewline(t) == t;
    forall j | 0 <= j < |m| ensures t[j] != ':' {
      assert t[j] == m[j];
    }
    IndexOfChar(t, ':', |m|);
    assert t[|m| + 1..] == "";
  }

  /** Whatever the module part, an attribute holding a dot fails the
      match: the first colon ends the module part and a dot is not a word
      character. */
  lemma AttrWithDotRejected(m: string, attr: string)
    requires ':' !in m && '.' in attr
    ensures MatchPath(m + ":" + attr).None?
  {
    var k :| 0 <= k < |attr| && attr[k] == '.';
    DotAfterColon(m, attr, k);
    var t := DropFinalNewline(m + ":" + attr);
    DotNotAttr(t[|m| + 1..], k);
    BadAttrRejected(m + ":" + attr, |m|);
  }

  /** A dot is not a word character. */
  lemma DotNotAttr(x: string, k: nat)
    requires k < |x| && x[k] == '.'
    ensures !IsAttr(x)
  {
    assert !IsWordChar(x[k]);
  }

  /** After the final newline is dropped, the first colon is the one
      after `m`, and the dot of `attr` is still there. */
  lemma DotAfterColon(m: string, attr: string, k: nat)
    requires ':' !in m && k < |attr| && attr[k] == '.'
    ensures var t := DropFinalNewline(m + ":" + attr);
            IndexOf(t, ":") == Some(|m|) && |m| + 1 + k < |t| && t[|m| + 1..][k] == '.'
  {
    var s := m + ":" + attr;
    var t := DropFinalNewline(s);
    assert |t| > |m| + k + 1 by {
      if t != s { assert attr[|attr| - 1] == s[|s| - 1] == '\n'; }
    }
    assert t[|m|] == ':' && t[|m| + 1 + k] == '.';
    forall j | 0 <= j < |m| ensures t[j] != ':' {
      assert t[j] == m[j];
    }
    IndexOfChar(t, ':', |m|);
  }

  /** Text after the first colon that is not a name fails the match. */
  lemma BadAttrRejected(s: string, i: nat)
    requires IndexOf(DropFinalNewline(s), ":") == Some(i) && i < |DropFinalNewline(s)|
    requires !IsAttr(DropFinalNewline(s)[i + 1..])
    ensures MatchPath(s).None?
  {
  }

  /** A path ending in a dot has an empty last name. */
  lemma NoTrailingSegment(s: string)
    requires |s| > 0 && s[|s| - 1] == '.'
    ensures !IsModulePath(s)
  {
    SplitLastEmpty(s, '.');
  }

  /** Splitting on a character that ends the text leaves an empty last
      piece. */
  lemma {:induction false} SplitLastEmpty(s: string, c: char)
    requires |s| > 0 && s[|s| - 1] == c
    ensures Split(s, [c])[|Split(s, [c])| - 1] == []
    decreases |s|
  {
    assert OccursAt(s, [c], |s| - 1) by { assert s[|s| - 1..] == [c]; }
    IndexOfContains(s, [c]);
    var i := IndexOf(s, [c]).value;
    var rest := s[i + 1..];
    var tail := Split(rest, [c]);
    assert Split(s, [c]) == [s[..i]] + tail;
    if rest == [] {
      NoChar(rest, c);
      assert tail == [rest];
    } else {
      assert rest[|rest| - 1] == s[|s| - 1];
      SplitLastEmpty(rest, c);
    }
    assert Split(s, [c])[|Split(s, [c])| - 1] == tail[|tail| - 1];
  }

  /** A path starting with a dot has an empty first name. */
  lemma NoLeadingSegment(s: string)
    requires |s| > 0 && s[0] == '.'
    ensures !IsModulePath(s)
  {
    IndexOfChar(s, '.', 0);
    assert Split(s, ".")[0] == s[..0] == "";
  }

  /** An imported module or attribute. */
  datatype Imported<V> = ModuleObject(path: string) | Attribute(value: V)

  /** ValueError for a path with the wrong syntax, ImportError for a
      module or attribute that cannot be loaded. */
  datatype LoadError = ValueError | ImportError

  /** `import_from_str(import_str)` with `modules` mapping each importable
      module path to its attributes. */
  function ImportFromStr<V>(importStr: string, modules: map<string, map<string, V>>): (r: Result<Imported<V>, LoadError>)
    ensures r == Err(ValueError) <==> MatchPath(importStr).None?
    ensures r == Err(ImportError) <==>
              MatchPath(importStr).Some? &&
              (MatchPath(importStr).value.0 !in modules ||
               (MatchPath(importStr).value.1.Some? &&
                MatchPath(importStr).value.1.value !in modules[MatchPath(importStr).value.0]))
    ensures r.Ok? && r.value.ModuleObject? ==> MatchPath(importStr).value.1.None? && r.value.path == MatchPath(importStr).value.0
    ensures r.Ok? && r.value.Attribute? ==>
              MatchPath(importStr).value.1.Some? &&
              r.value.value == modules[MatchPath(importStr).value.0][MatchPath(importStr).value.1.value]
  {
    match MatchPath(importStr)
    case None => Err(ValueError)
    case Some((path, attr)) =>
      if path !in modules then Err(ImportError)
      else if attr.None? then Ok(ModuleObject(path))
      else if attr.value !in modules[path] then Err(ImportError)
      else Ok(Attribute(modules[path][attr.value]))
  }

  /** A rendered path resolves to its module, or to the attribute of that
      module, exactly when they exist. */
  lemma ImportRendered<V>(names: seq<string>, attr: Option<string>, modules: map<string, map<string, V>>)
    requires |names| >= 1 && forall k :: 0 <= k < |names| ==> IsSegment(names[k])
    requires attr.Some? ==> IsAttr(attr.value)
    ensures var path := Join(names, ".");
            var r := ImportFromStr(Render(names, attr), modules);
            (path !in modules ==> r == Err(ImportError)) &&
            (path in modules && attr.None? ==> r == Ok(ModuleObject(path))) &&
            (path in modules && attr.Some? ==>
               r == if attr.value in modules[path] then Ok(Attribute(modules[path][attr.value])) else Err(ImportError))
  {
    RenderMatches(names, attr);
  }

  /** A final newline is accepted and ignored. */
  lemma FinalNewlineIgnored(s: string)
    requires s == [] || s[|s| - 1] != '\n'
    ensures MatchPath(s + "\n") == MatchPath(s)
  {
    assert (s + "\n")[..|s|] == s;
  }
}
