/** The servers that are online, and the cleaning of a hostname before it is looked up. */
module Registers {
  import opened Basics

  const RANDOM_PREFIX := "random-"
  const KEY_SERVER_SUFFIX := ".t.craftip.net"

  // Hostnames

  function TrimDots(h: string): string {
    if h != [] && h[|h| - 1] == '.' then TrimDots(h[..|h| - 1]) else h
  }

  function AfterFirstDot(h: string): string {
    if h == "" then "" else if h[0] == '.' then h[1..] else AfterFirstDot(h[1..])
  }

  /** A label made up to get round DNS caches is cut off. */
  function CleanUpHostname(hostname: string): string {
    var h := TrimDots(hostname);
    if RANDOM_PREFIX <= h then AfterFirstDot(h) else h
  }

  predicate OnlyDots(s: string) {
    forall i | 0 <= i < |s| :: s[i] == '.'
  }

  lemma {:induction false} TrimMore(h: string, dots: string)
    requires OnlyDots(dots)
    ensures TrimDots(h + dots) == TrimDots(h)
    decreases |dots|
  {
    if dots == "" {
      assert h + dots == h;
    } else {
      var fewer := dots[..|dots| - 1];
      assert (h + dots)[..|h + dots| - 1] == h + fewer && (h + dots)[|h + dots| - 1] == dots[|dots| - 1];
      TrimMore(h, fewer);
    }
  }

  /** Trimming leaves a prefix that does not end in a dot, and takes nothing but dots. */
  lemma {:induction false} TrimDotsMeaning(h: string)
    ensures var t := TrimDots(h);
            t <= h && OnlyDots(h[|t|..]) && (t != "" ==> t[|t| - 1] != '.')
    decreases |h|
  {
    if h != [] && h[|h| - 1] == '.' { TrimDotsMeaning(h[..|h| - 1]); }
  }

  /** Trailing dots never change what is looked up. */
  lemma TrailingDots(h: string, dots: string)
    requires OnlyDots(dots)
    ensures CleanUpHostname(h + dots) == CleanUpHostname(h)
  {
    TrimMore(h, dots);
  }

  lemma {:induction false} FirstDot(s: string, rest: string)
    requires '.' !in s
    ensures AfterFirstDot(s) == "" && AfterFirstDot(s + "." + rest) == rest
  {
    var whole := s + "." + rest;
    if s == "" {
      assert whole[1..] == rest;
    } else {
      assert whole[1..] == s[1..] + "." + rest && whole[0] == s[0];
      FirstDot(s[1..], rest);
    }
  }

  lemma {:induction false} TrimSuffix(front: string, rest: string)
    requires TrimDots(rest) != ""
    ensures TrimDots(front + rest) == front + TrimDots(rest)
    decreases |rest|
  {
    if rest[|rest| - 1] == '.' {
      assert (front + rest)[..|front + rest| - 1] == front + rest[..|rest| - 1];
      TrimSuffix(front, rest[..|rest| - 1]);
    }
  }

  /** Any one made-up label is cut off, and the rest is trimmed like any name, even when nothing is left of it. */
  lemma RandomLabel(s: string, rest: string)
    requires '.' !in s
    ensures CleanUpHostname(RANDOM_PREFIX + s + "." + rest) == TrimDots(rest)
    ensures CleanUpHostname(RANDOM_PREFIX + s) == ""
  {
    var name := RANDOM_PREFIX + s;
    assert RANDOM_PREFIX <= name;
    NoDotsToTrim(name);
    FirstDot(name, "");
    RandomRest(name, rest);
  }

  lemma RandomRest(name: string, rest: string)
    requires '.' !in name && RANDOM_PREFIX <= name
    ensures CleanUpHostname(name + "." + rest) == TrimDots(rest)
  {
    if TrimDots(rest) == "" {
      OnlyDotsAfter(name, rest);
    } else {
      TrimSuffix(name + ".", rest);
      CutLabel(name, TrimDots(rest));
    }
  }

  lemma OnlyDotsAfter(name: string, rest: string)
    requires '.' !in name && RANDOM_PREFIX <= name && TrimDots(rest) == ""
    ensures CleanUpHostname(name + "." + rest) == ""
  {
    NoDotsToTrim(name);
    FirstDot(name, "");
    TrimDotsMeaning(rest);
    hide TrimDots, AfterFirstDot;
    var dots := "." + rest;
    assert OnlyDots(dots);
    assert name + "." + rest == name + dots;
    TrimMore(name, dots);
  }

  lemma CutLabel(name: string, rest: string)
    requires '.' !in name && RANDOM_PREFIX <= name
    ensures RANDOM_PREFIX <= name + "." + rest && AfterFirstDot(name + "." + rest) == rest
  {
    hide AfterFirstDot;
    FirstDot(name, rest);
  }

  lemma NoDotsToTrim(s: string)
    requires '.' !in s
    ensures TrimDots(s) == s
  {
  }

  /** Cleaning a cleaned name changes it exactly if a second made-up label stood behind the first. */
  lemma CleanTwice(h: string)
    ensures var t := TrimDots(h);
            CleanUpHostname(CleanUpHostname(h)) != CleanUpHostname(h) <==>
            RANDOM_PREFIX <= t && RANDOM_PREFIX <= AfterFirstDot(t)
  {
    var once := CleanUpHostname(h);
    TrimDotsMeaning(h);
    EndsTheSame(TrimDots(h));
    assert TrimDots(once) == once;
    if RANDOM_PREFIX <= once { EndsTheSame(once); }
  }

  lemma TwoLabels()
    ensures CleanUpHostname("random-a.random-b.c") == "random-b.c" && CleanUpHostname("random-b.c") == "c"
  {
    assert "random-a.random-b.c" == RANDOM_PREFIX + "a" + "." + "random-b.c";
    assert "random-b.c" == RANDOM_PREFIX + "b" + "." + "c";
    RandomLabel("a", "random-b.c");
    RandomLabel("b", "c");
  }

  /** What follows the first dot is shorter than the name and ends like it. */
  lemma {:induction false} EndsTheSame(h: string)
    ensures var r := AfterFirstDot(h);
            && (h != "" ==> |r| < |h|)
            && (r != "" ==> h != "" && r[|r| - 1] == h[|h| - 1])
  {
    if h != "" && h[0] != '.' { EndsTheSame(h[1..]); }
  }

  // The hostnames of servers

  predicate Base36(s: string) {
    forall c | c in s :: '0' <= c <= '9' || 'a' <= c <= 'z'
  }

  lemma SuffixStays(name: string)
    ensures TrimDots(name + KEY_SERVER_SUFFIX) == name + KEY_SERVER_SUFFIX
  {
    var h := name + KEY_SERVER_SUFFIX;
    assert h[|h| - 1] == KEY_SERVER_SUFFIX[|KEY_SERVER_SUFFIX| - 1] == 't';
  }

  /** No hostname made from a key looks like a made-up label: the alphabet has no hyphen, and neither has the suffix. */
  lemma KeyHostnameUnchanged(name: string)
    requires Base36(name)
    ensures CleanUpHostname(name + KEY_SERVER_SUFFIX) == name + KEY_SERVER_SUFFIX
  {
    var h := name + KEY_SERVER_SUFFIX;
    SuffixStays(name);
    assert '-' !in h;
    assert '-' in RANDOM_PREFIX;
    assert !(RANDOM_PREFIX <= h) by { PrefixContains(RANDOM_PREFIX, h, '-'); }
  }

  lemma PrefixContains(a: string, b: string, c: char)
    requires c in a && c !in b
    ensures !(a <= b)
  {
    var i :| 0 <= i < |a| && a[i] == c;
    assert |a| <= |b| ==> b[i] != a[i];
  }

  /** Every decorated form of a server's hostname is cleaned to the hostname itself. */
  lemma DecoratedHostname(name: string, s: string, dots: string)
    requires Base36(name) && '.' !in s && OnlyDots(dots)
    ensures var host := name + KEY_SERVER_SUFFIX;
            && CleanUpHostname(host + dots) == host
            && CleanUpHostname(RANDOM_PREFIX + s + "." + host + dots) == host
  {
    var host := name + KEY_SERVER_SUFFIX;
    KeyHostnameUnchanged(name);
    SuffixStays(name);
    TrailingDots(host, dots);
    RandomLabel(s, host);
    TrailingDots(RANDOM_PREFIX + s + "." + host, dots);
  }

  // The register

  /** The sending end of a session's queue. */
  type Tx = nat

  type Servers = map<string, Tx>

  function Find(servers: Servers, hostname: string): Option<Tx> {
    if hostname in servers then Some(servers[hostname]) else None
  }

  function Added(servers: Servers, hostname: string, tx: Tx): Servers {
    if hostname in servers then servers else servers[hostname := tx]
  }

  class Register {
    var servers: Servers
    var clientCount: usize

    constructor ()
      ensures servers == map[] && clientCount == 0
    {
      servers, clientCount := map[], 0;
    }

    method GetServer(hostname: string) returns (tx: Option<Tx>)
      ensures tx == Find(servers, hostname)
      ensures tx == if hostname in servers then Some(servers[hostname]) else None
    {
      if hostname in servers {
        return Some(servers[hostname]);
      }
      return None;
    }

    method RemoveServer(hostname: string)
      modifies this`servers
      ensures servers == old(servers) - {hostname}
    {
      servers := servers - {hostname};
    }

    /** The first one to come keeps the hostname. */
    method AddServer(hostname: string, tx: Tx) returns (ok: bool)
      modifies this`servers
      ensures ok <==> hostname !in old(servers)
      ensures servers == Added(old(servers), hostname, tx)
      ensures servers == if ok then old(servers)[hostname := tx] else old(servers)
    {
      if hostname in servers {
        return false;
      }
      servers := servers[hostname := tx];
      return true;
    }

    method AddClient()
      modifies this`clientCount
      ensures clientCount == if old(clientCount) == USIZE_MAX then USIZE_MAX else old(clientCount) + 1
    {
      clientCount := SaturatingAdd(clientCount, 1);
    }

    method RemoveClient()
      modifies this`clientCount
      ensures clientCount == if old(clientCount) == 0 then 0 else old(clientCount) - 1
    {
      clientCount := SaturatingSub(clientCount, 1);
    }

    /** How a player is led to the session its first packet asks for. */
    method ServerFor(hostname: string) returns (tx: Option<Tx>)
      ensures tx == Find(servers, CleanUpHostname(hostname))
    {
      tx := GetServer(CleanUpHostname(hostname));
    }
  }

  /** Whatever a player's packet adds to a server's hostname, the same session is found. */
  lemma DecoratedLookup(servers: Servers, name: string, s: string, dots: string)
    requires Base36(name) && '.' !in s && OnlyDots(dots)
    ensures var host := name + KEY_SERVER_SUFFIX;
            && Find(servers, CleanUpHostname(host + dots)) == Find(servers, host)
            && Find(servers, CleanUpHostname(RANDOM_PREFIX + s + "." + host + dots)) == Find(servers, host)
  {
    DecoratedHostname(name, s, dots);
  }

  // The names that are tried in the repository, and one with dots behind it

  lemma CleanedRandomNames()
    ensures CleanUpHostname("random-123123.testawe.random.com") == "testawe.random.com"
    ensures CleanUpHostname("random-123123") == ""
  {
    hide CleanUpHostname, TrimDots;
    var rest := "testawe.random.com";
    PlainNameStays(rest);
    assert "random-123123.testawe.random.com" == RANDOM_PREFIX + "123123" + "." + rest;
    RandomLabel("123123", rest);
    assert "random-123123" == RANDOM_PREFIX + "123123";
  }

  lemma CleanedLetters()
    ensures CleanUpHostname("random-ab12cd.testawe.random.com") == "testawe.random.com"
  {
    hide CleanUpHostname, TrimDots;
    var rest := "testawe.random.com";
    PlainNameStays(rest);
    assert "random-ab12cd.testawe.random.com" == RANDOM_PREFIX + "ab12cd" + "." + rest;
    RandomLabel("ab12cd", rest);
  }

  lemma PlainNameStays(h: string)
    requires h != "" && h[|h| - 1] != '.'
    ensures TrimDots(h) == h
  {
  }

  lemma CleanedPlainNames()
    ensures CleanUpHostname("testawe.random.com") == "testawe.random.com"
    ensures CleanUpHostname("randomtestawe.random.com") == "randomtestawe.random.com"
  {
    hide AfterFirstDot, TrimDots;
    PlainNameStays("testawe.random.com");
    PlainNameStays("randomtestawe.random.com");
    assert "testawe.random.com"[0] == 't' && "randomtestawe.random.com"[6] == 't';
    assert RANDOM_PREFIX[0] == 'r' && RANDOM_PREFIX[6] == '-';
  }

  lemma CleanedServerName()
    ensures CleanUpHostname("play.t.craftip.net..") == "play.t.craftip.net"
  {
    hide CleanUpHostname, TrimDots;
    assert "play.t.craftip.net.." == "play" + KEY_SERVER_SUFFIX + "..";
    TrailingDots("play" + KEY_SERVER_SUFFIX, "..");
    KeyHostnameUnchanged("play");
  }

  /** A name without a made-up label only loses its trailing dots. */
  lemma OrdinaryName(h: string)
    requires !("random-" <= TrimDots(h))
    ensures CleanUpHostname(h) == TrimDots(h)
  {
  }
}
