/** `os.path.splitext` on POSIX paths, which the extension dispatch of
    one_book_ledger/bill_parser/common_paser.py and the stored-name builder
    of one_book_ledger/upload_handler.py both rely on. */
module Paths {
  import opened Wrappers
  import opened Text

  /** Some character of `s[from..to]` is not a dot. */
  predicate NotAllDots(s: string, from: nat, to: nat)
    requires from <= to <= |s|
  {
    exists i :: from <= i < to && s[i] != '.'
  }

  /** Where the base name starts: just after the last '/'. */
  function BaseStart(p: string): (b: nat)
    ensures b <= |p| && '/' !in p[b..]
    ensures b > 0 ==> p[b - 1] == '/'
  {
    match LastIndex(p, '/')
    case None => 0
    case Some(i) => i + 1
  }

  /** `os.path.splitext(p)`: the extension is the part from the last dot
      of the base name on, provided that dot is not one of the base name's
      leading dots; otherwise it is empty. */
  function Splitext(p: string): (r: (string, string))
    ensures r.0 + r.1 == p
    ensures r.1 == [] || (r.1[0] == '.' && '.' !in r.1[1..] && '/' !in r.1)
  {
    var b := BaseStart(p);
    match LastIndex(p, '.')
    case Some(d) =>
      if b <= d && NotAllDots(p, b, d) then
        assert p[d + 1..] == p[d..][1..];
        assert p[d..] == p[b..][d - b..];
        (p[..d], p[d..])
      else (p, [])
    case None => (p, [])
  }

  /** Text without `c` appended to a string does not move the last `c`. */
  lemma {:induction false} LastIndexAppend(s: string, t: string, c: char)
    requires c !in t
    ensures LastIndex(s + t, c) == LastIndex(s, c)
    decreases |t|
  {
    if t == [] {
      assert s + t == s;
    } else {
      var t' := t[..|t| - 1];
      assert (s + t)[..|s + t| - 1] == s + t';
      LastIndexAppend(s, t', c);
    }
  }

  /** A `c` with no `c` after it is the last `c`. */
  lemma LastIndexIs(s: string, i: nat, c: char)
    requires i < |s| && s[i] == c && c !in s[i + 1..]
    ensures LastIndex(s, c) == Some(i)
  {
    assert s == s[..i + 1] + s[i + 1..];
    LastIndexAppend(s[..i + 1], s[i + 1..], c);
  }

  /** A name without a dot has no extension. */
  lemma SplitextNoDot(p: string)
    requires '.' !in p
    ensures Splitext(p) == (p, [])
  {
  }

  /** Text without a dot or a slash put between a name's stem and its
      extension leaves the extension where it was: the stem grows, the
      extension stays. */
  lemma SplitextInsert(stem: string, mid: string, ext: string)
    requires '.' !in mid && '/' !in mid
    requires Splitext(stem + ext) == (stem, ext)
    ensures Splitext(stem + mid + ext) == (stem + mid, ext)
  {
    if ext == [] {
      assert stem + ext == stem && stem + mid + ext == stem + mid;
      InsertNoExtension(stem, mid);
    } else {
      InsertBeforeExtension(stem, mid, ext);
    }
  }

  /** Text without a slash appended to a path keeps its base name where it
      was. */
  lemma BaseStartAppend(s: string, t: string)
    requires '/' !in t
    ensures BaseStart(s + t) == BaseStart(s)
  {
    LastIndexAppend(s, t, '/');
  }

  lemma InsertNoExtension(stem: string, mid: string)
    requires '.' !in mid && '/' !in mid
    requires Splitext(stem) == (stem, [])
    ensures Splitext(stem + mid) == (stem + mid, [])
  {
    var q := stem + mid;
    var b := BaseStart(stem);
    BaseStartAppend(stem, mid);
    LastIndexAppend(stem, mid, '.');
  }

  lemma InsertBeforeExtension(stem: string, mid: string, ext: string)
    requires '.' !in mid && '/' !in mid && ext != []
    requires Splitext(stem + ext) == (stem, ext)
    ensures Splitext(stem + mid + ext) == (stem + mid, ext)
  {
    var name := stem + ext;
    var b := BaseStart(stem);
    assert '/' !in ext && ext[0] == '.' && '.' !in ext[1..];
    assert b <= |stem| && NotAllDots(stem, b, |stem|) by {
      ExtensionWitness(name);
      BaseStartAppend(stem, ext);
      var i :| b <= i < |stem| && name[i] != '.';
      assert stem[i] == name[i];
    }
    InsertAt(stem, mid, ext);
  }

  lemma InsertAt(stem: string, mid: string, ext: string)
    requires '.' !in mid && '/' !in mid
    requires ext != [] && ext[0] == '.' && '.' !in ext[1..] && '/' !in ext
    requires BaseStart(stem) <= |stem| && NotAllDots(stem, BaseStart(stem), |stem|)
    ensures Splitext(stem + mid + ext) == (stem + mid, ext)
  {
    var q := stem + mid + ext;
    var n := |stem| + |mid|;
    var b := BaseStart(stem);
    assert BaseStart(q) == b by {
      assert q == stem + (mid + ext);
      BaseStartAppend(stem, mid + ext);
    }
    assert NotAllDots(q, b, n) by {
      var i :| b <= i < |stem| && stem[i] != '.';
      assert q[i] == stem[i];
    }
    assert q[n] == '.' && '.' !in q[n + 1..] by {
      assert q[n..] == ext;
      assert q[n + 1..] == ext[1..];
    }
    ExtensionAt(q, n);
    assert q[..n] == stem + mid && q[n..] == ext;
  }

  /** A non-empty extension starts at the last dot, which stands after a
      character of the base name that is not a dot. */
  lemma ExtensionWitness(p: string)
    requires Splitext(p).1 != []
    ensures LastIndex(p, '.') == Some(|Splitext(p).0|)
    ensures BaseStart(p) <= |Splitext(p).0| && NotAllDots(p, BaseStart(p), |Splitext(p).0|)
  {
  }

  /** The split at a last dot that follows a character of the base name
      that is not a dot. */
  lemma ExtensionAt(p: string, d: nat)
    requires d < |p| && p[d] == '.' && '.' !in p[d + 1..]
    requires BaseStart(p) <= d && NotAllDots(p, BaseStart(p), d)
    ensures Splitext(p) == (p[..d], p[d..])
  {
    LastIndexIs(p, d, '.');
  }

  /** Only the last dot counts: 'a.tar.gz' splits into 'a.tar' and '.gz'. */
  lemma SplitextLastDot()
    ensures Splitext("a.tar.gz") == ("a.tar", ".gz")
  {
    var p := "a.tar.gz";
    assert '/' !in p;
    assert p[6..] == "gz";
    LastIndexIs(p, 5, '.');
    assert p[0] != '.';
    assert NotAllDots(p, 0, 5);
    assert p[..5] == "a.tar" && p[5..] == ".gz";
  }
}
