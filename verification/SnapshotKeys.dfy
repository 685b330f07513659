/**
 The files of a snapshot. The storage model names them by snapshot id and kind; here those
 pairs are tied to the key strings the engine builds and matches by prefix and suffix.
 */
module SnapshotKeys {
  import opened Wrappers
  import opened SnapshotIds
  import opened Texts
  import Calendar
  import Globs
  import Order

  datatype Extension = Plain | Age | Gpg

  datatype Kind = Manifest | Marker | Archive(ext: Extension)

  datatype Key = Key(sid: string, kind: Kind)

  function Ending(kind: Kind): (r: string)
    ensures StartsWith(r, ".") && '/' !in r
  {
    match kind
    case Manifest => ".manifest.json"
    case Marker => ".offsite-pending.json"
    case Archive(Plain) => ".tar.gz"
    case Archive(Age) => ".tar.gz.age"
    case Archive(Gpg) => ".tar.gz.gpg"
  }

  function Text(key: Key): string {
    key.sid + Ending(key.kind)
  }

  // ---- Ids whose files are kept apart ----

  /** No character of the id stands for something else in a path or a glob pattern. */
  predicate IsFileName(sid: string) {
    forall i :: 0 <= i < |sid| ==> sid[i] !in "/*?["
  }

  /** `b` is `a`, a dot, and something more or nothing. */
  predicate Continues(b: string, a: string) {
    StartsWith(b, a + ".")
  }

  predicate Apart(a: string, b: string) {
    !Continues(a, b) && !Continues(b, a)
  }

  /** `list_keys(prefix="<a>.")` finds the files of `a`, and those of the ids that continue `a` after a dot. */
  lemma PrefixFinds(a: string, key: Key)
    requires !Continues(a, key.sid)
    ensures StartsWith(Text(key), a + ".") <==> key.sid == a || Continues(key.sid, a)
  {
    var t, e, want := Text(key), Ending(key.kind), a + ".";
    assert t[..|key.sid|] == key.sid && t[|key.sid|] == e[0] == '.';
    if StartsWith(t, want) {
      if |a| < |key.sid| {
        assert key.sid[..|want|] == t[..|want|] == want;
      } else if |a| == |key.sid| {
        assert t[..|a|] == want[..|a|] == a;
      } else {
        LongerPrefix(a, key);
      }
    }
    if key.sid == a {
      assert t == want + e[1..];
    } else if Continues(key.sid, a) {
      assert t == want + (key.sid[|want|..] + e);
    }
  }

  lemma LongerPrefix(a: string, key: Key)
    requires |a| > |key.sid| && StartsWith(Text(key), a + ".")
    ensures Continues(a, key.sid)
  {
    var t, n := Text(key), |key.sid|;
    assert t[..n + 1] == key.sid + ".";
    assert a[..n + 1] == (a + ".")[..n + 1] == t[..n + 1];
  }

  /** So it finds the files of `a` and of no other id, exactly if no other id in use continues `a`. */
  lemma PrefixFindsOwn(a: string, key: Key)
    requires key.sid == a || Apart(a, key.sid)
    ensures StartsWith(Text(key), a + ".") <==> key.sid == a
  {
    NotItsOwn(a);
    PrefixFinds(a, key);
  }

  lemma NotItsOwn(a: string)
    ensures !Continues(a, a)
  {
  }

  /** Two ids find none of each other's files exactly if they differ and neither continues the other after a dot. */
  lemma ApartExactly(a: string, b: string)
    ensures (forall kind :: !StartsWith(Text(Key(b, kind)), a + ".") && !StartsWith(Text(Key(a, kind)), b + "."))
       <==> a != b && Apart(a, b)
  {
    if a != b && Apart(a, b) {
      forall kind ensures !StartsWith(Text(Key(b, kind)), a + ".") && !StartsWith(Text(Key(a, kind)), b + ".") {
        PrefixFinds(a, Key(b, kind));
        PrefixFinds(b, Key(a, kind));
      }
    } else {
      NotItsOwn(a);
      if !Continues(a, b) {
        PrefixFinds(a, Key(b, Manifest));
      } else if !Continues(b, a) {
        PrefixFinds(b, Key(a, Manifest));
      }
    }
  }

  lemma GoingOnContinues(b: string, a: string)
    ensures StartsWith(b, a + ".tar.gz") ==> Continues(b, a)
  {
    if StartsWith(b, a + ".tar.gz") {
      assert b[..|a| + 1] == (a + ".tar.gz")[..|a| + 1] == a + ".";
    }
  }

  /** Ids without dots, as all that name a job, are apart. */
  lemma NoDotsApart(a: string, b: string)
    requires '.' !in a && '.' !in b
    ensures Apart(a, b)
  {
    ContinuesByDot(a, b);
    ContinuesByDot(b, a);
  }

  lemma ContinuesByDot(b: string, a: string)
    ensures Continues(b, a) ==> '.' in b
  {
    assert Continues(b, a) ==> b[|a|] == (a + ".")[|a|];
  }

  lemma NamedIdIsPlain(sid: string)
    requires SlugOf(sid).Some?
    ensures '.' !in sid && IsFileName(sid)
  {
    NamedIdText(sid);
  }

  /** Where the engine globs for `<a>.*` in one directory, it finds what starts with `a` and a dot. */
  lemma GlobIsPrefix(a: string, name: string, charset: Globs.Charset)
    requires IsFileName(a)
    ensures Globs.Fnmatch(name, a + ".*", charset) <==> StartsWith(name, a + ".")
    ensures Globs.Fnmatch(name, a + ".tar.gz*", charset) <==> StartsWith(name, a + ".tar.gz")
  {
    assert a + ".*" == (a + ".") + "*" && a + ".tar.gz*" == (a + ".tar.gz") + "*";
    Globs.NameStarIsPrefix(name, a + ".", charset);
    Globs.NameStarIsPrefix(name, a + ".tar.gz", charset);
  }

  /** An id given to `run_job` may hold a dot: then pruning `a` deletes the files of `a.b` as well. */
  lemma DottedIdIsFound(kind: Kind)
    ensures StartsWith(Text(Key("a.b", kind)), "a" + ".") && !Apart("a", "a.b")
  {
    assert Text(Key("a.b", kind)) == "a." + ("b" + Ending(kind));
    assert "a.b" == "a." + "b";
  }

  /** Endings are told apart by the last character, or the sixth from the end. */
  lemma EndingsDiffer(k: Kind, l: Kind)
    requires k != l
    ensures var x, y := Ending(k), Ending(l); x[|x| - 1] != y[|y| - 1] || x[|x| - 6] != y[|y| - 6]
  {
    assert Ending(Manifest)[13] == 'n' && Ending(Manifest)[8] == 't';
    assert Ending(Marker)[20] == 'n' && Ending(Marker)[15] == 'g';
    assert Ending(Archive(Plain))[6] == 'z';
    assert Ending(Archive(Age))[10] == 'e' && Ending(Archive(Gpg))[10] == 'g';
    assert |Ending(Manifest)| == 14 && |Ending(Marker)| == 21;
    assert |Ending(Archive(Plain))| == 7 && |Ending(Archive(Age))| == |Ending(Archive(Gpg))| == 11;
    assert k.Archive? ==> k == Archive(Plain) || k == Archive(Age) || k == Archive(Gpg);
    assert l.Archive? ==> l == Archive(Plain) || l == Archive(Age) || l == Archive(Gpg);
  }

  /** Different files have different keys, whatever their ids. */
  lemma TextInjective(k: Key, l: Key)
    requires Text(k) == Text(l)
    ensures k == l
  {
    var t, x, y := Text(k), Ending(k.kind), Ending(l.kind);
    assert t[|t| - 1] == x[|x| - 1] == y[|y| - 1] && t[|t| - 6] == x[|x| - 6] == y[|y| - 6];
    if k.kind != l.kind {
      EndingsDiffer(k.kind, l.kind);
    }
    assert t[..|t| - |x|] == k.sid == l.sid;
  }

  /** The keys that end in `.manifest.json` are the manifests, and cutting the ending off gives the id. */
  lemma ManifestSuffix(key: Key)
    ensures EndsWith(Text(key), ".manifest.json") <==> key.kind == Manifest
    ensures key.kind == Manifest ==> Text(key)[..|Text(key)| - |".manifest.json"|] == key.sid
  {
    var s, e, want := Text(key), Ending(key.kind), ".manifest.json";
    assert s[|key.sid|..] == e && s[..|key.sid|] == key.sid;
    if key.kind != Manifest {
      // The last character but five tells the kinds apart.
      assert e[|e| - 6] != want[8] || e[|e| - 1] != want[13];
      assert s[|s| - 6] == e[|e| - 6] && s[|s| - 1] == e[|e| - 1];
      assert |s| >= 14 ==> s[|s| - 14..][8] == s[|s| - 6] && s[|s| - 14..][13] == s[|s| - 1];
    }
  }

  /**
   `glob("<a>.tar.gz*")` finds the archives of `a`, whatever their encryption, and the files of ids that go on
   like one.
   */
  lemma ArchiveGlob(a: string, key: Key)
    ensures StartsWith(Text(key), a + ".tar.gz") <==>
      (key.sid == a && key.kind.Archive?) || StartsWith(key.sid, a + ".tar.gz")
  {
    ArchiveIsFound(a, key);
    if StartsWith(Text(key), a + ".tar.gz") {
      if |key.sid| <= |a| {
        FoundIsArchive(a, key);
      } else {
        FoundGoesOn(a, key);
      }
    }
  }

  lemma ArchiveIsFound(a: string, key: Key)
    ensures (key.sid == a && key.kind.Archive?) || StartsWith(key.sid, a + ".tar.gz") ==>
      StartsWith(Text(key), a + ".tar.gz")
  {
    var t, e, want := Text(key), Ending(key.kind), a + ".tar.gz";
    if key.sid == a && key.kind.Archive? {
      assert e == ".tar.gz" + e[7..];
      assert t == want + e[7..];
    } else if StartsWith(key.sid, want) {
      assert t == want + (key.sid[|want|..] + e);
    }
  }

  lemma FoundIsArchive(a: string, key: Key)
    requires StartsWith(Text(key), a + ".tar.gz") && |key.sid| <= |a|
    ensures key.sid == a && key.kind.Archive?
  {
    var t, e, want, n := Text(key), Ending(key.kind), a + ".tar.gz", |key.sid|;
    assert e[|a| - n..|a| - n + 7] == t[|a|..|want|] == want[|a|..] == ".tar.gz";
    TarGzOnce(key.kind, |a| - n);
    assert t[..n] == key.sid && t[..|a|] == want[..|a|] == a;
  }

  lemma FoundGoesOn(a: string, key: Key)
    requires StartsWith(Text(key), a + ".tar.gz") && |key.sid| > |a|
    ensures StartsWith(key.sid, a + ".tar.gz")
  {
    var t, e, want, n := Text(key), Ending(key.kind), a + ".tar.gz", |key.sid|;
    assert t[|a|..|want|] == want[|a|..] == ".tar.gz";
    assert t[n] == e[0] == '.' && t[n + 1] == e[1] != 'g';
    assert forall i :: |a| <= i < |want| ==> t[i] == t[|a|..|want|][i - |a|];
    if |want| <= n {
      assert key.sid[..|want|] == t[..|want|] == want;
    }
  }

  /** An ending holds `.tar.gz` only at its start, and only those of archives. */
  lemma TarGzOnce(kind: Kind, d: nat)
    ensures d + 7 <= |Ending(kind)| && Ending(kind)[d..d + 7] == ".tar.gz" ==> d == 0 && kind.Archive?
  {
    var e := Ending(kind);
    assert d + 7 <= |e| && e[d..d + 7] == ".tar.gz" ==> e[d] == e[d..d + 7][0] && e[d + 1] == e[d..d + 7][1];
    assert Ending(Manifest)[1] == 'm' && Ending(Manifest)[9] == '.' && Ending(Manifest)[10] == 'j';
    assert Ending(Marker)[1] == 'o' && Ending(Marker)[16] == '.' && Ending(Marker)[17] == 'j';
    assert forall ext :: Ending(Archive(ext))[4] == '.' && Ending(Archive(ext))[5] == 'g';
  }

  lemma LessAt(p: string, c: char, u: string, d: char, v: string)
    requires c < d
    ensures Order.Less(p + ([c] + u), p + ([d] + v))
  {
    Order.LessCommonPrefix(p, [c] + u, [d] + v);
  }

  lemma MarkerEnding()
    ensures Ending(Marker) == "." + (['o'] + "ffsite-pending.json")
  {
  }

  lemma ArchiveEnding(ext: Extension)
    ensures Ending(Archive(ext)) == "." + (['t'] + Ending(Archive(ext))[2..])
  {
  }

  lemma ManifestBeforeMarker()
    ensures Order.Less(Ending(Manifest), Ending(Marker))
  {
    MarkerEnding();
    LessAt(".", 'm', "anifest.json", 'o', "ffsite-pending.json");
    assert Ending(Manifest) == "." + (['m'] + "anifest.json");
  }

  lemma MarkerBeforeArchive(ext: Extension)
    ensures Order.Less(Ending(Marker), Ending(Archive(ext)))
  {
    MarkerEnding();
    ArchiveEnding(ext);
    LessAt(".", 'o', "ffsite-pending.json", 't', Ending(Archive(ext))[2..]);
  }

  lemma PlainBeforeAge()
    ensures Order.Less(Ending(Archive(Plain)), Ending(Archive(Age)))
  {
    Order.LessCommonPrefix(".tar.gz", "", ".age");
    assert ".tar.gz" + "" == ".tar.gz" && ".tar.gz" + ".age" == ".tar.gz.age";
  }

  lemma AgeBeforeGpg()
    ensures Order.Less(Ending(Archive(Age)), Ending(Archive(Gpg)))
  {
    LessAt(".tar.gz.", 'a', "ge", 'g', "pg");
    assert ".tar.gz." + (['a'] + "ge") == ".tar.gz.age" && ".tar.gz." + (['g'] + "pg") == ".tar.gz.gpg";
  }

  /** Sorted listings put the manifest of a snapshot first, then its marker, then its archive. */
  lemma KeyOrder(sid: string, ext: Extension)
    ensures Order.Less(Text(Key(sid, Manifest)), Text(Key(sid, Marker)))
    ensures Order.Less(Text(Key(sid, Marker)), Text(Key(sid, Archive(ext))))
    ensures Order.Less(Text(Key(sid, Archive(Plain))), Text(Key(sid, Archive(Age))))
    ensures Order.Less(Text(Key(sid, Archive(Age))), Text(Key(sid, Archive(Gpg))))
  {
    ManifestBeforeMarker();
    MarkerBeforeArchive(ext);
    PlainBeforeAge();
    AgeBeforeGpg();
    Order.LessCommonPrefix(sid, Ending(Manifest), Ending(Marker));
    Order.LessCommonPrefix(sid, Ending(Marker), Ending(Archive(ext)));
    Order.LessCommonPrefix(sid, Ending(Archive(Plain)), Ending(Archive(Age)));
    Order.LessCommonPrefix(sid, Ending(Archive(Age)), Ending(Archive(Gpg)));
  }

  /** For two runs with different ids, no file of one starts with the other's id and a dot. */
  lemma NoFileOfAnotherRun(s: Calendar.DateTime, j: Option<string>, t: Calendar.DateTime, k: Option<string>, kind: Kind)
    requires Calendar.Valid(s) && Calendar.Valid(t)
    requires NewSnapshotId(s, j) != NewSnapshotId(t, k)
    ensures !StartsWith(Text(Key(NewSnapshotId(t, k), kind)), NewSnapshotId(s, j) + ".")
  {
    IdHasNoDot(s, j);
    IdHasNoDot(t, k);
    NoDotsApart(NewSnapshotId(s, j), NewSnapshotId(t, k));
    PrefixFindsOwn(NewSnapshotId(s, j), Key(NewSnapshotId(t, k), kind));
  }

  // ---- Two key prefixes in one bucket ----

  /**
   What a destination with prefix `p` sees of a file that another one, with prefix `p + surplus`,
   stored in the same bucket. With a `/` in the surplus it is not a snapshot of the first
   destination, and pruning the first one's snapshot `sid` deletes it just when the surplus
   itself starts with `sid.` - so prefixes that do not spell a snapshot id keep places apart.
   */
  lemma NestedPrefixSeen(sid: string, surplus: string, key: Key)
    requires '/' !in sid && '/' in surplus
    ensures '/' in surplus + Text(key)
    ensures StartsWith(surplus + Text(key), sid + ".") <==> StartsWith(surplus, sid + ".")
  {
    var i :| 0 <= i < |surplus| && surplus[i] == '/';
    var seen, want := surplus + Text(key), sid + ".";
    assert seen[i] == '/' && '/' !in want;
    if StartsWith(seen, want) {
      assert i >= |want| by {
        assert forall k :: 0 <= k < |want| ==> seen[k] == want[k] && want[k] in want;
      }
      assert surplus[..|want|] == seen[..|want|] == want;
    }
    if StartsWith(surplus, want) {
      assert seen == want + (surplus[|want|..] + Text(key));
    }
  }
}
