/** The driver file names `${name}_${checksum}_${first_access_ts}.jar` of
    be/runtime/jdbc_driver_manager.{h,cpp}: printing, parsing, and when the two agree. */
module DriverCodec {
  import opened Wrappers
  import opened Decimal
  import opened FsUtil

  const TMP_FILE_SUFFIX := ".tmp"
  const JAR_FILE_SUFFIX := ".jar"

  /** What a driver file name says. */
  datatype Jar = Jar(name: string, checksum: string, ts: int)

  /** `AsWritten` keeps the third separator test of the parser, which looks for an underscore inside
      the name; `Repaired` drops it. */
  datatype Codec = AsWritten | Repaired

  /** `find_last_of`, with -1 for `npos`. */
  function LastIndexOf(s: string, c: char): (pos: int)
    ensures -1 <= pos < |s|
    ensures pos >= 0 ==> s[pos] == c
    ensures forall i | pos < i < |s| :: s[i] != c
  {
    if s == [] then -1
    else if s[|s| - 1] == c then |s| - 1
    else LastIndexOf(s[..|s| - 1], c)
  }

  function BaseName(jar: Jar): string {
    jar.name + "_" + jar.checksum + "_" + ToString(jar.ts) + JAR_FILE_SUFFIX
  }

  /** `_generate_driver_location`. */
  function Location(dir: string, jar: Jar): string {
    PathOf(dir, BaseName(jar))
  }

  /** The path `_download_driver` streams into. */
  function TmpPath(dir: string, name: string, checksum: string): string {
    PathOf(dir, name + "_" + checksum + TMP_FILE_SUFFIX)
  }

  /** What `_parse_from_file_name` answers. */
  function Parse(codec: Codec, file: string): Option<Jar>
    requires EndsWith(file, JAR_FILE_SUFFIX)
  {
    var stem := file[..|file| - |JAR_FILE_SUFFIX|];
    var p := LastIndexOf(stem, '_');
    if p < 0 || Stol(stem[p + 1..]).None? then None else
    var q := LastIndexOf(stem[..p], '_');
    if q < 0 then None else
    var name := stem[..q];
    if codec.AsWritten? && LastIndexOf(name, '_') < 0 then None else
    Some(Jar(name, stem[q + 1..p], Stol(stem[p + 1..]).value))
  }

  /** The parser, shrinking its view of the name step by step. */
  method ParseFromFileName(codec: Codec, file: string)
    returns (ok: bool, name: string, checksum: string, firstAccessTs: int)
    requires EndsWith(file, JAR_FILE_SUFFIX)
    ensures ok <==> Parse(codec, file).Some?
    ensures ok ==> Parse(codec, file) == Some(Jar(name, checksum, firstAccessTs))
  {
    ok, name, checksum, firstAccessTs := false, "", "", 0;
    var view := file[..|file| - |JAR_FILE_SUFFIX|];
    ghost var stem := view;
    var pos := LastIndexOf(view, '_');
    if pos < 0 { return; }
    var str := view[pos + 1..];
    match Stol(str) {
      case None => return;
      case Some(ts) => firstAccessTs := ts;
    }
    view := view[..|view| - (|str| + 1)];
    pos := LastIndexOf(view, '_');
    if pos < 0 { return; }
    str := view[pos + 1..];
    checksum := str;
    assert checksum == stem[pos + 1..|view|];
    view := view[..|view| - (|str| + 1)];
    assert view == stem[..pos];
    pos := LastIndexOf(view, '_');
    if codec.AsWritten? && pos < 0 { return; }
    name := view;
    ok := true;
  }

  lemma {:induction false} LastIndexOfSplit(a: string, c: char, b: string)
    requires c !in b
    ensures LastIndexOf(a + [c] + b, c) == |a|
  {
    if b == [] {
      assert a + [c] + b == a + [c];
    } else {
      var front := b[..|b| - 1];
      assert (a + [c] + b)[..|a| + |b|] == a + [c] + front;
      assert (a + [c] + b)[|a| + |b|] == b[|b| - 1];
      LastIndexOfSplit(a, c, front);
    }
  }

  predicate HasUnderscore(s: string) {
    '_' in s
  }

  /** The parser accepts a composed name exactly when its last part is a number and, as written,
      its first part holds an underscore; and it returns those parts. */
  lemma ParseComposed(codec: Codec, name: string, checksum: string, tail: string)
    requires !HasUnderscore(checksum) && !HasUnderscore(tail)
    ensures EndsWith(name + "_" + checksum + "_" + tail + JAR_FILE_SUFFIX, JAR_FILE_SUFFIX)
    ensures Parse(codec, name + "_" + checksum + "_" + tail + JAR_FILE_SUFFIX)
         == if Stol(tail).Some? && (codec.Repaired? || HasUnderscore(name))
            then Some(Jar(name, checksum, Stol(tail).value)) else None
  {
    var stem := name + "_" + checksum + "_" + tail;
    EndsWithAppended(stem, JAR_FILE_SUFFIX);
    assert (stem + JAR_FILE_SUFFIX)[..|stem|] == stem;
    LastIndexOfSplit(name + "_" + checksum, '_', tail);
    var p := |name| + 1 + |checksum|;
    assert stem[p + 1..] == tail;
    assert stem[..p] == name + "_" + checksum;
    LastIndexOfSplit(name, '_', checksum);
    assert stem[|name| + 1..p] == checksum && stem[..|name|] == name;
  }

  /** Every accepted name is such a composition, so `ParseComposed` describes all of them. */
  lemma ParseDecomposes(codec: Codec, file: string) returns (tail: string)
    requires EndsWith(file, JAR_FILE_SUFFIX) && Parse(codec, file).Some?
    ensures var jar := Parse(codec, file).value;
      && file == jar.name + "_" + jar.checksum + "_" + tail + JAR_FILE_SUFFIX
      && !HasUnderscore(jar.checksum) && !HasUnderscore(tail)
      && Stol(tail) == Some(jar.ts)
      && (codec.AsWritten? ==> HasUnderscore(jar.name))
  {
    EndsWithIsSuffix(file, JAR_FILE_SUFFIX);
    var stem := file[..|file| - |JAR_FILE_SUFFIX|];
    var p := LastIndexOf(stem, '_');
    tail := stem[p + 1..];
    var q := LastIndexOf(stem[..p], '_');
    assert stem == stem[..q] + "_" + stem[q + 1..p] + "_" + tail;
    forall i | q < i < p
      ensures stem[i] != '_'
    {
      assert stem[..p][i] != '_';
    }
  }

  /** Codec round trip, both directions: printing and parsing agree exactly when the checksum holds
      no underscore and, as written, the name holds one. */
  lemma RoundTrip(codec: Codec, jar: Jar)
    requires IsInt64(jar.ts)
    ensures EndsWith(BaseName(jar), JAR_FILE_SUFFIX)
    ensures Parse(codec, BaseName(jar)) == Some(jar)
       <==> !HasUnderscore(jar.checksum) && (codec.Repaired? || HasUnderscore(jar.name))
  {
    EndsWithAppended(jar.name + "_" + jar.checksum + "_" + ToString(jar.ts), JAR_FILE_SUFFIX);
    if HasUnderscore(jar.checksum) {
      if Parse(codec, BaseName(jar)) == Some(jar) {
        var _ := ParseDecomposes(codec, BaseName(jar));
      }
    } else {
      ToStringChars(jar.ts, '_');
      StolOfToString(jar.ts);
      ParseComposed(codec, jar.name, jar.checksum, ToString(jar.ts));
    }
  }

  /** Distinct drivers get distinct file names while checksums hold no underscore. */
  lemma BaseNameInjective(a: Jar, b: Jar)
    requires IsInt64(a.ts) && IsInt64(b.ts)
    requires !HasUnderscore(a.checksum) && !HasUnderscore(b.checksum)
    ensures BaseName(a) == BaseName(b) <==> a == b
  {
    RoundTrip(Repaired, a);
    RoundTrip(Repaired, b);
  }

  /** Without that condition they need not. */
  lemma BaseNameCollides()
    ensures exists a: Jar, b: Jar :: a != b && IsInt64(a.ts) && IsInt64(b.ts) && BaseName(a) == BaseName(b)
  {
    var a, b := Jar("ora", "x_y", 1), Jar("ora_x", "y", 1);
    assert a.name + "_" + a.checksum == b.name + "_" + b.checksum;
    assert a != b && IsInt64(a.ts) && IsInt64(b.ts) && BaseName(a) == BaseName(b);
  }

  /** Re-printing what the parser accepted gives a name that parses to the same driver, although
      `stol` may have skipped blanks and zeros or ignored trailing text. */
  lemma Canonicalises(codec: Codec, file: string)
    requires EndsWith(file, JAR_FILE_SUFFIX) && Parse(codec, file).Some?
    ensures var jar := Parse(codec, file).value;
      EndsWith(BaseName(jar), JAR_FILE_SUFFIX) && Parse(codec, BaseName(jar)) == Some(jar)
  {
    var _ := ParseDecomposes(codec, file);
    RoundTrip(codec, Parse(codec, file).value);
  }

  /** Among the names that stand for a driver, the generated one is the shortest: it holds nothing that the
      parser would skip. */
  lemma BaseNameIsShortest(codec: Codec, file: string)
    requires EndsWith(file, JAR_FILE_SUFFIX) && Parse(codec, file).Some?
    ensures |BaseName(Parse(codec, file).value)| <= |file|
  {
    var tail := ParseDecomposes(codec, file);
    ToStringIsShortest(tail);
  }

  /** The driver the data source asks for is one the parser, as written, never reads back: whatever
      the checksum and the time, its own file name is refused. */
  lemma WrittenCodecRefusesMssql(checksum: string, ts: int)
    requires IsInt64(ts) && !HasUnderscore(checksum)
    ensures EndsWith(BaseName(Jar("mssql-jdbc", checksum, ts)), JAR_FILE_SUFFIX)
    ensures Parse(AsWritten, BaseName(Jar("mssql-jdbc", checksum, ts))) == None
    ensures Parse(Repaired, BaseName(Jar("mssql-jdbc", checksum, ts)))
         == Some(Jar("mssql-jdbc", checksum, ts))
  {
    ToStringChars(ts, '_');
    ParseComposed(AsWritten, "mssql-jdbc", checksum, ToString(ts));
    RoundTrip(Repaired, Jar("mssql-jdbc", checksum, ts));
  }

  // ----- Paths

  /** The driver a path inside `dir` stands for, read with the repaired parser. */
  function PathJar(dir: string, path: string): Option<Jar> {
    if PathOf(dir, "") <= path && EndsWith(path[|dir| + 1..], JAR_FILE_SUFFIX)
    then Parse(Repaired, path[|dir| + 1..]) else None
  }

  lemma PathJarOfBase(dir: string, base: string)
    ensures PathJar(dir, PathOf(dir, base))
         == if EndsWith(base, JAR_FILE_SUFFIX) then Parse(Repaired, base) else None
  {
    assert PathOf(dir, base)[..|dir| + 1] == PathOf(dir, "");
    assert PathOf(dir, base)[|dir| + 1..] == base;
  }

  /** A generated location stands for the driver it was generated from. */
  lemma LocationAgrees(dir: string, jar: Jar)
    requires IsInt64(jar.ts) && !HasUnderscore(jar.checksum)
    ensures PathJar(dir, Location(dir, jar)) == Some(jar)
  {
    RoundTrip(Repaired, jar);
    PathJarOfBase(dir, BaseName(jar));
  }

  /** A generated location always stands for some driver, underscores in the checksum or not. */
  lemma LocationParses(dir: string, jar: Jar)
    requires IsInt64(jar.ts)
    ensures PathJar(dir, Location(dir, jar)).Some?
  {
    var front, tail := jar.name + "_" + jar.checksum, ToString(jar.ts);
    EndsWithAppended(front + "_" + tail, JAR_FILE_SUFFIX);
    PathJarOfBase(dir, BaseName(jar));
    assert BaseName(jar)[..|front + "_" + tail|] == front + "_" + tail;
    ToStringChars(jar.ts, '_');
    LastIndexOfSplit(front, '_', tail);
    StolOfToString(jar.ts);
    assert (front + "_" + tail)[|front| + 1..] == tail && (front + "_" + tail)[..|front|] == front;
    assert front[|jar.name|] == '_';
  }

  lemma SuffixesDiffer(s: string)
    requires EndsWith(s, TMP_FILE_SUFFIX)
    ensures !EndsWith(s, JAR_FILE_SUFFIX)
  {
    assert FromEnd(s, 0) == FromEnd(TMP_FILE_SUFFIX, 0) != FromEnd(JAR_FILE_SUFFIX, 0);
  }

  /** A temporary path never stands for a driver, and ends in the suffix the scan clears. */
  lemma TmpPathIsNoJar(dir: string, name: string, checksum: string)
    ensures PathJar(dir, TmpPath(dir, name, checksum)) == None
    ensures EndsWith(name + "_" + checksum + TMP_FILE_SUFFIX, TMP_FILE_SUFFIX)
  {
    var base := name + "_" + checksum + TMP_FILE_SUFFIX;
    EndsWithAppended(name + "_" + checksum, TMP_FILE_SUFFIX);
    SuffixesDiffer(base);
    PathJarOfBase(dir, base);
  }

  lemma LocationIsNotTmp(dir: string, jar: Jar, name: string, checksum: string)
    ensures Location(dir, jar) != TmpPath(dir, name, checksum)
  {
    var base := name + "_" + checksum + TMP_FILE_SUFFIX;
    EndsWithAppended(jar.name + "_" + jar.checksum + "_" + ToString(jar.ts), JAR_FILE_SUFFIX);
    EndsWithAppended(name + "_" + checksum, TMP_FILE_SUFFIX);
    SuffixesDiffer(base);
    PathOfInjective(dir, BaseName(jar), base);
  }

  /** Equal generated locations go with equal temporary paths, underscores in the checksum or not. */
  lemma LocationFixesTmp(dir: string, a: Jar, b: Jar)
    requires Location(dir, a) == Location(dir, b)
    ensures TmpPath(dir, a.name, a.checksum) == TmpPath(dir, b.name, b.checksum)
  {
    var s, t := a.name + "_" + a.checksum, b.name + "_" + b.checksum;
    var x, y := s + "_" + ToString(a.ts), t + "_" + ToString(b.ts);
    PathOfInjective(dir, BaseName(a), BaseName(b));
    assert BaseName(a) == x + JAR_FILE_SUFFIX && BaseName(b) == y + JAR_FILE_SUFFIX;
    assert x == (x + JAR_FILE_SUFFIX)[..|x|] && y == (y + JAR_FILE_SUFFIX)[..|y|];
    ToStringChars(a.ts, '_');
    ToStringChars(b.ts, '_');
    LastIndexOfSplit(s, '_', ToString(a.ts));
    LastIndexOfSplit(t, '_', ToString(b.ts));
    assert s == x[..|s|] && t == y[..|t|];
  }

  /** Temporary paths are shared exactly by pairs that read the same around an underscore, which
      while checksums hold none are equal pairs. */
  lemma TmpPathInjective(dir: string, n1: string, c1: string, n2: string, c2: string)
    ensures TmpPath(dir, n1, c1) == TmpPath(dir, n2, c2) <==> n1 + "_" + c1 == n2 + "_" + c2
    ensures !HasUnderscore(c1) && !HasUnderscore(c2) ==>
      (TmpPath(dir, n1, c1) == TmpPath(dir, n2, c2) <==> n1 == n2 && c1 == c2)
  {
    var s1, s2 := n1 + "_" + c1, n2 + "_" + c2;
    PathOfInjective(dir, s1 + TMP_FILE_SUFFIX, s2 + TMP_FILE_SUFFIX);
    assert s1 == (s1 + TMP_FILE_SUFFIX)[..|s1|] && s2 == (s2 + TMP_FILE_SUFFIX)[..|s2|];
    if s1 == s2 && !HasUnderscore(c1) && !HasUnderscore(c2) {
      LastIndexOfSplit(n1, '_', c1);
      LastIndexOfSplit(n2, '_', c2);
      assert n1 == s1[..|n1|] && n2 == s2[..|n2|];
      assert c1 == s1[|n1| + 1..] && c2 == s2[|n2| + 1..];
    }
  }

  /** A driver's location is its temporary path with the stamp put before the other suffix. */
  lemma LocationExtendsTmp(dir: string, jar: Jar)
    ensures var tmp, location := TmpPath(dir, jar.name, jar.checksum), Location(dir, jar);
      && tmp == dir + "/" + jar.name + "_" + jar.checksum + ".tmp"
      && location == tmp[..|tmp| - 4] + "_" + ToString(jar.ts) + ".jar"
  {
    var stem := PathOf(dir, jar.name + "_" + jar.checksum);
    assert stem == dir + "/" + jar.name + "_" + jar.checksum;
    assert TmpPath(dir, jar.name, jar.checksum) == stem + ".tmp";
    assert Location(dir, jar) == stem + "_" + ToString(jar.ts) + ".jar";
  }
}
