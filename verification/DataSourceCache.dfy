/** The pool cache of the Java bridge (DataSourceCache.java) and the key `open` looks it up with
    (JDBCScanner.java:50). */
module DataSourceCache {
  import opened Wrappers

  /** The parts of a scan context the key is made of. */
  datatype Context = Context(user: string, jdbcURL: string)

  function Key(context: Context): string {
    context.user + "/" + context.jdbcURL
  }

  class DataSourceCache<Source> {
    var sources: map<string, Source>
    /** How often each key's provider has succeeded. */
    ghost var created: multiset<string>

    ghost predicate Valid()
      reads this
    {
      forall k :: created[k] == if k in sources then 1 else 0
    }

    constructor ()
      ensures Valid() && sources == map[]
    {
      sources, created := map[], multiset{};
    }

    /** `computeIfAbsent`: the provider runs only for an absent key; when it throws or yields null
        (`None`), nothing is cached and nothing returned. */
    method GetSource(driverId: string, provider: () -> Option<Source>) returns (source: Option<Source>)
      requires Valid()
      modifies this
      ensures Valid()
      ensures sources == Cached(old(sources), driverId, provider()).0
      ensures source == Cached(old(sources), driverId, provider()).1
    {
      if driverId in sources {
        return Some(sources[driverId]);
      }
      source := provider();
      if source.Some? {
        sources := sources[driverId := source.value];
        created := created + multiset{driverId};
      }
    }
  }

  /** One lookup: the map after it and the source returned. */
  function Cached<Source>(sources: map<string, Source>, key: string, made: Option<Source>)
    : (map<string, Source>, Option<Source>)
  {
    if key in sources then (sources, Some(sources[key]))
    else if made.Some? then (sources[key := made.value], made)
    else (sources, None)
  }

  /** A history of `open` calls, each with what its provider would make. */
  datatype Open<Source> = Open(context: Context, made: Option<Source>)

  function SourcesAfter<Source>(opens: seq<Open<Source>>): map<string, Source> {
    if opens == [] then map[]
    else
      var last := opens[|opens| - 1];
      Cached(SourcesAfter(opens[..|opens| - 1]), Key(last.context), last.made).0
  }

  function Returned<Source>(opens: seq<Open<Source>>, i: nat): Option<Source>
    requires i < |opens|
  {
    Cached(SourcesAfter(opens[..i]), Key(opens[i].context), opens[i].made).1
  }

  /** The first call for a key whose provider succeeds. */
  ghost predicate IsFirst<Source>(opens: seq<Open<Source>>, key: string, i: nat) {
    && i < |opens| && Key(opens[i].context) == key && opens[i].made.Some?
    && forall j | 0 <= j < i && Key(opens[j].context) == key :: opens[j].made.None?
  }

  /** A key is cached exactly when some provider has succeeded for it, with the first such source. */
  lemma {:induction false} CachedIsFirst<Source>(opens: seq<Open<Source>>, key: string)
    ensures key in SourcesAfter(opens) <==> exists i: nat :: IsFirst(opens, key, i)
    ensures forall i: nat | IsFirst(opens, key, i) ::
      key in SourcesAfter(opens) && SourcesAfter(opens)[key] == opens[i].made.value
  {
    if opens != [] {
      var n := |opens| - 1;
      var front := opens[..n];
      CachedIsFirst(front, key);
      forall i: nat | i < n
        ensures IsFirst(front, key, i) <==> IsFirst(opens, key, i)
      {
      }
      if Key(opens[n].context) == key && opens[n].made.Some? && key !in SourcesAfter(front) {
        NoneBefore(front, key);
        assert IsFirst(opens, key, n);
      }
      if key in SourcesAfter(front) {
        var i: nat :| IsFirst(front, key, i);
        assert !IsFirst(opens, key, n);
      }
    }
  }

  /** If no call is the first success for a key, no call for it succeeds. */
  lemma {:induction false} NoneBefore<Source>(opens: seq<Open<Source>>, key: string)
    requires forall i: nat :: !IsFirst(opens, key, i)
    ensures forall j | 0 <= j < |opens| && Key(opens[j].context) == key :: opens[j].made.None?
  {
    if opens != [] {
      var n := |opens| - 1;
      forall i: nat
        ensures !IsFirst(opens[..n], key, i)
      {
        assert IsFirst(opens[..n], key, i) ==> IsFirst(opens, key, i);
      }
      NoneBefore(opens[..n], key);
      assert forall j | 0 <= j < n :: opens[j] == opens[..n][j];
      assert !IsFirst(opens, key, n);
    }
  }

  /** Over any sequence of `open` calls: from the first success for its key on, a call returns that
      first source, whatever its own provider would make. */
  lemma LaterCallsShare<Source>(opens: seq<Open<Source>>, i: nat, j: nat)
    requires i <= j < |opens| && Key(opens[i].context) == Key(opens[j].context)
    requires IsFirst(opens, Key(opens[i].context), i)
    ensures Returned(opens, j) == opens[i].made
  {
    var key := Key(opens[i].context);
    CachedIsFirst(opens[..j], key);
    if i < j {
      assert IsFirst(opens[..j], key, i);
    } else {
      assert forall k | 0 <= k < j && Key(opens[..j][k].context) == key :: opens[..j][k].made.None?;
    }
  }

  /** Until then a call gets what its own provider makes of it, which is nothing. */
  lemma EarlierCallsFail<Source>(opens: seq<Open<Source>>, i: nat)
    requires i < |opens|
    requires forall j | 0 <= j <= i && Key(opens[j].context) == Key(opens[i].context) :: opens[j].made.None?
    ensures Returned(opens, i).None?
  {
    var key := Key(opens[i].context);
    CachedIsFirst(opens[..i], key);
    forall j: nat
      ensures !IsFirst(opens[..i], key, j)
    {
      assert j < i ==> opens[..i][j] == opens[j];
    }
    assert key !in SourcesAfter(opens[..i]);
  }

  /** While users hold no slash, two contexts share a key exactly when user and URL both agree. */
  lemma KeyInjective(a: Context, b: Context)
    requires '/' !in a.user && '/' !in b.user
    ensures Key(a) == Key(b) <==> a == b
  {
    if Key(a) == Key(b) {
      var n, m := |a.user|, |b.user|;
      assert Key(a)[n] == '/' && Key(b)[m] == '/';
      assert forall k | 0 <= k < n :: Key(a)[k] == a.user[k] != '/';
      assert forall k | 0 <= k < m :: Key(b)[k] == b.user[k] != '/';
      assert a.user == Key(a)[..n] == Key(b)[..m] == b.user;
      assert a.jdbcURL == Key(a)[n + 1..] == Key(b)[m + 1..] == b.jdbcURL;
    }
  }

  /** A context shares its key with some other context exactly when its user or its URL holds a
      slash, as every `jdbc:...://` URL does; so it is the users that have to be kept free of them. */
  lemma KeySharedIff(a: Context)
    ensures (exists b: Context :: b != a && Key(b) == Key(a)) <==> '/' in a.user || '/' in a.jdbcURL
  {
    if i :| 0 <= i < |a.user| && a.user[i] == '/' {
      Resplit(a.user[..i], a.user[i + 1..], a.jdbcURL);
      assert a.user == a.user[..i] + "/" + a.user[i + 1..];
      assert Context(a.user[..i], a.user[i + 1..] + "/" + a.jdbcURL).user != a.user;
    } else if i :| 0 <= i < |a.jdbcURL| && a.jdbcURL[i] == '/' {
      Resplit(a.user, a.jdbcURL[..i], a.jdbcURL[i + 1..]);
      assert a.jdbcURL == a.jdbcURL[..i] + "/" + a.jdbcURL[i + 1..];
      assert Context(a.user + "/" + a.jdbcURL[..i], a.jdbcURL[i + 1..]).user != a.user;
    } else {
      forall b: Context | Key(b) == Key(a)
        ensures b == a
      {
        OnlySlash(a, b);
      }
    }
  }

  lemma Resplit(x: string, y: string, z: string)
    ensures Key(Context(x + "/" + y, z)) == Key(Context(x, y + "/" + z))
  {
    assert x + "/" + y + "/" + z == x + "/" + (y + "/" + z);
  }

  lemma OnlySlash(a: Context, b: Context)
    requires '/' !in a.user && '/' !in a.jdbcURL && Key(b) == Key(a)
    ensures b == a
  {
    var n := |b.user|;
    assert Key(b)[n] == '/';
    assert forall k | 0 <= k < |Key(a)| && k != |a.user| :: Key(a)[k] != '/';
    assert n == |a.user|;
    assert b.user == Key(b)[..n] && a.user == Key(a)[..n];
    assert b.jdbcURL == Key(b)[n + 1..] && a.jdbcURL == Key(a)[n + 1..];
  }
}
