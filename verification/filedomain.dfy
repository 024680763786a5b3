/** The primary domain the passkeys handler derives from an entry's path:
    `filename.replace(/.*\/|\.[^.]*$/g, '')`. The global replace scans the
    path from left to right; at each position it tries the alternatives in
    order and deletes what matches:
      - `.*\/`     the longest run up to a `/` that crosses no line break
                   (`.` matches anything but a line terminator);
      - `\.[^.]*$` a `.` that is followed by no other `.` up to the end;
    and where neither matches it keeps one character and moves on. Whether
    a match exists at a position depends only on the text from there on, so
    the scan is written over suffixes. */
module FileDomain {
  import opened Common

  /** The characters the regular-expression `.` does not match. */
  predicate IsLineTerminator(c: char) {
    c == '\n' || c == '\r' || c == '\U{2028}' || c == '\U{2029}'
  }

  predicate NoLineTerminator(s: string) {
    forall i :: 0 <= i < |s| ==> !IsLineTerminator(s[i])
  }

  /** Where a match of `.*\/` at the start of `t` ends: the index of the last
      `/` before the first line terminator, if there is one. */
  function SlashMatch(t: string): (k: Option<nat>)
    ensures k.Some? ==> k.value < |t| && t[k.value] == '/'
    ensures k.Some? ==> NoLineTerminator(t[..k.value + 1])
    ensures k.None? ==> t == [] || t[0] != '/'
    decreases |t|
  {
    if t == [] || IsLineTerminator(t[0]) then None
    else
      match SlashMatch(t[1..])
      case Some(k) => Some(k + 1)
      case None => if t[0] == '/' then Some(0) else None
  }

  /** The global replace applied to the rest `t` of the path. */
  function Replace(t: string): string
    decreases |t|
  {
    if t == [] then []
    else
      match SlashMatch(t)
      case Some(k) => Replace(t[k + 1..])
      case None =>
        if t[0] == '.' && '.' !in t[1..] then [] else [t[0]] + Replace(t[1..])
  }

  /** The domain derived from an entry's path; it never holds a `/`. */
  function StripDomain(filename: string): (d: string)
    ensures '/' !in d
  {
    StripDomainHasNoSlash(filename);
    Replace(filename)
  }

  /** On a single line, the slash alternative matches exactly when there is a
      slash, and then reaches the last one. */
  lemma {:induction false} SlashMatchOnOneLine(t: string)
    requires NoLineTerminator(t)
    ensures SlashMatch(t).None? <==> '/' !in t
    ensures SlashMatch(t).Some? ==> '/' !in t[SlashMatch(t).value + 1..]
    decreases |t|
  {
    if t != [] {
      SlashMatchOnOneLine(t[1..]);
      assert t == [t[0]] + t[1..];
      match SlashMatch(t[1..])
      case Some(k) =>
        assert t[1..][k + 1..] == t[k + 2..];
      case None =>
    }
  }

  /** The derived domain never contains a `/`, whatever the path. */
  lemma {:induction false} StripDomainHasNoSlash(t: string)
    ensures '/' !in Replace(t)
    decreases |t|
  {
    if t != [] {
      match SlashMatch(t)
      case Some(k) =>
        StripDomainHasNoSlash(t[k + 1..]);
      case None =>
        StripDomainHasNoSlash(t[1..]);
    }
  }

  /** A slash-free name followed by `.ext` (an extension without dots) loses
      exactly the extension; dots inside the name are kept. */
  lemma {:induction false} DropsLastExtension(name: string, ext: string)
    requires '/' !in name && '/' !in ext && '.' !in ext
    ensures Replace(name + ['.'] + ext) == name
    decreases |name|
  {
    var t := name + ['.'] + ext;
    if name == [] {
      assert t == ['.'] + ext;
      assert t[1..] == ext;
      assert SlashMatch(t).None?;
    } else {
      DropsLastExtension(name[1..], ext);
      assert t[1..] == name[1..] + ['.'] + ext;
      assert t[1..][|name| - 1] == '.';
      KeepsFirst(t);
      assert [name[0]] + name[1..] == name;
    }
  }

  /** Where no alternative matches, the first character is kept. */
  lemma KeepsFirst(t: string)
    requires t != [] && t[0] != '/' && '/' !in t[1..]
    requires t[0] != '.' || '.' in t[1..]
    ensures Replace(t) == [t[0]] + Replace(t[1..])
  {
    assert SlashMatch(t).None?;
  }

  /** A slash-free name without dots is kept whole. */
  lemma {:induction false} KeepsPlainName(name: string)
    requires '/' !in name && '.' !in name
    ensures Replace(name) == name
    decreases |name|
  {
    if name != [] {
      assert SlashMatch(name).None?;
      KeepsPlainName(name[1..]);
      assert name == [name[0]] + name[1..];
    }
  }

  /** Everything up to and including the last `/` is dropped. */
  lemma DropsDirectory(dir: string, rest: string)
    requires NoLineTerminator(dir) && NoLineTerminator(rest) && '/' !in rest
    ensures Replace(dir + ['/'] + rest) == Replace(rest)
  {
    var t := dir + ['/'] + rest;
    assert NoLineTerminator(t) by {
      forall i | 0 <= i < |t| ensures !IsLineTerminator(t[i]) {
        if i > |dir| {
          assert t[i] == rest[i - |dir| - 1];
        } else if i < |dir| {
          assert t[i] == dir[i];
        }
      }
    }
    SlashMatchOnOneLine(t);
    assert t[|dir|] == '/';
    assert SlashMatch(t) == Some(|dir|);
    assert t[|dir| + 1..] == rest;
  }

  /** The round trip of the entry layout: `<dir>/<name>.<ext>` yields `name`. */
  lemma StripDomainRoundTrip(dir: string, name: string, ext: string)
    requires NoLineTerminator(dir) && NoLineTerminator(name) && NoLineTerminator(ext)
    requires '/' !in name && '/' !in ext && '.' !in ext
    ensures StripDomain(dir + ['/'] + name + ['.'] + ext) == name
  {
    var rest := name + ['.'] + ext;
    assert NoLineTerminator(rest) by {
      forall i | 0 <= i < |rest| ensures !IsLineTerminator(rest[i]) {
        if i < |name| {
          assert rest[i] == name[i];
        } else if i > |name| {
          assert rest[i] == ext[i - |name| - 1];
        }
      }
    }
    assert dir + ['/'] + name + ['.'] + ext == dir + ['/'] + rest;
    DropsDirectory(dir, rest);
    DropsLastExtension(name, ext);
  }

  /** The example of the entry layout: `entries/e/example.com.json`. */
  lemma ExampleEntryPath()
    ensures StripDomain("entries/e/example.com.json") == "example.com"
  {
    var dir, name, ext := "entries/e", "example.com", "json";
    assert dir + ['/'] + name + ['.'] + ext == "entries/e/example.com.json";
    StripDomainRoundTrip(dir, name, ext);
  }
}
