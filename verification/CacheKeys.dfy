/** The keys of cached lists, the invalidation pattern, and how the server matches keys against patterns. */
module CacheKeys {
  import opened Decimal
  import opened Entities

  const TEAM_CACHE_PREFIX := "tasks:team:"

  /** Everything of the invalidation pattern but its final star. */
  function TeamPrefix(team: int): string {
    TEAM_CACHE_PREFIX + FormatInt(team) + ":"
  }

  // The part of the key after the team, from left to right.

  function ToStatus(f: ListFilter): string {
    "status=" + f.status
  }

  function ToAssignee(f: ListFilter): string {
    ToStatus(f) + ":assignee=" + FormatInt(f.assigneeId)
  }

  function ToLimit(f: ListFilter): string {
    ToAssignee(f) + ":limit=" + FormatInt(f.limit)
  }

  function ToOffset(f: ListFilter): string {
    ToLimit(f) + ":offset=" + FormatInt(f.offset)
  }

  /** tasks:team:%d:status=%s:assignee=%d:limit=%d:offset=%d */
  function TeamTasksKey(f: ListFilter): string {
    TeamPrefix(f.teamId) + ToOffset(f)
  }

  function TeamPattern(team: int): string {
    TeamPrefix(team) + "*"
  }

  /** Glob matching with stars; the other glob characters do not occur in the pattern. */
  predicate GlobMatch(pattern: string, s: string)
    decreases |pattern| + |s|
  {
    if pattern == "" then s == ""
    else if pattern[0] == '*' then GlobMatch(pattern[1..], s) || (s != "" && GlobMatch(pattern, s[1..]))
    else s != "" && s[0] == pattern[0] && GlobMatch(pattern[1..], s[1..])
  }

  lemma {:induction false} StarMatchesAll(s: string)
    ensures GlobMatch("*", s)
  {
    if s == "" {
      assert "*"[1..] == "";
    } else {
      StarMatchesAll(s[1..]);
    }
  }

  lemma {:induction false} GlobIsPrefix(p: string, s: string)
    requires '*' !in p
    ensures GlobMatch(p + "*", s) <==> p <= s
  {
    if p == "" {
      assert p + "*" == "*";
      StarMatchesAll(s);
    } else {
      assert (p + "*")[1..] == p[1..] + "*";
      if s != "" {
        GlobIsPrefix(p[1..], s[1..]);
        assert p <= s <==> p[0] == s[0] && p[1..] <= s[1..];
      }
    }
  }

  lemma PatternIsPrefix(team: int, key: string)
    ensures GlobMatch(TeamPattern(team), key) <==> TeamPrefix(team) <= key
  {
    assert '*' !in TEAM_CACHE_PREFIX;
    GlobIsPrefix(TeamPrefix(team), key);
  }

  // ---- Cutting a text at its first and at its last separator ----

  lemma {:induction false} FirstCut(a: string, x: string, b: string, y: string, sep: char)
    requires sep !in a && sep !in b
    requires a + [sep] + x == b + [sep] + y
    ensures a == b && x == y
  {
    if a == "" || b == "" {
      assert (a + [sep] + x)[0] == (b + [sep] + y)[0];
      assert (a + [sep] + x)[1..] == x || a != "";
      assert (b + [sep] + y)[1..] == y || b != "";
    } else {
      assert (a + [sep] + x)[0] == a[0] && (b + [sep] + y)[0] == b[0];
      assert (a + [sep] + x)[1..] == a[1..] + [sep] + x;
      assert (b + [sep] + y)[1..] == b[1..] + [sep] + y;
      FirstCut(a[1..], x, b[1..], y, sep);
    }
  }

  lemma {:induction false} LastCut(x: string, a: string, y: string, b: string, sep: char)
    requires sep !in a && sep !in b
    requires x + [sep] + a == y + [sep] + b
    ensures a == b && x == y
    decreases |a|
  {
    var s, t := x + [sep] + a, y + [sep] + b;
    if a == "" || b == "" {
      assert s[|s| - 1] == t[|t| - 1];
      assert s[..|s| - 1] == x || a != "";
      assert t[..|t| - 1] == y || b != "";
    } else {
      assert s[|s| - 1] == a[|a| - 1] && t[|t| - 1] == b[|b| - 1];
      assert s[..|s| - 1] == x + [sep] + a[..|a| - 1];
      assert t[..|t| - 1] == y + [sep] + b[..|b| - 1];
      LastCut(x, a[..|a| - 1], y, b[..|b| - 1], sep);
    }
  }

  lemma CutAfterPrefix(p: string, a: string, x: string, b: string, y: string, sep: char)
    requires sep !in a && sep !in b
    requires p + a + [sep] + x == p + b + [sep] + y
    ensures a == b && x == y
  {
    assert (p + a + [sep] + x)[|p|..] == a + [sep] + x;
    assert (p + b + [sep] + y)[|p|..] == b + [sep] + y;
    FirstCut(a, x, b, y, sep);
  }

  lemma LabelledText(x: string, a: string, y: string, b: string, name: string)
    requires name != "" && name[0] == ':' && ':' !in name[1..] && ':' !in a && ':' !in b
    requires x + name + a == y + name + b
    ensures x == y && a == b
  {
    var rest := name[1..];
    assert x + name + a == x + [':'] + (rest + a);
    assert y + name + b == y + [':'] + (rest + b);
    LastCut(x, rest + a, y, rest + b, ':');
    assert (rest + a)[|rest|..] == a && (rest + b)[|rest|..] == b;
  }

  /** A labelled numeral at the end of a text can be read off, whatever precedes it. */
  lemma LabelledNumeral(x: string, n: int, y: string, m: int, name: string)
    requires name != "" && name[0] == ':' && ':' !in name[1..]
    requires x + name + FormatInt(n) == y + name + FormatInt(m)
    ensures x == y && n == m
  {
    LabelledText(x, FormatInt(n), y, FormatInt(m), name);
    FormatInjective(n, m);
  }

  /** The team can be read off a key, whatever follows it. */
  lemma TeamOfKey(t: int, x: string, u: int, y: string)
    requires TeamPrefix(t) + x == TeamPrefix(u) + y
    ensures t == u && x == y
  {
    CutAfterPrefix(TEAM_CACHE_PREFIX, FormatInt(t), x, FormatInt(u), y, ':');
    FormatInjective(t, u);
  }

  lemma RestInjective(f: ListFilter, g: ListFilter)
    requires ToOffset(f) == ToOffset(g)
    ensures f.status == g.status && f.assigneeId == g.assigneeId && f.limit == g.limit && f.offset == g.offset
  {
    LabelledNumeral(ToLimit(f), f.offset, ToLimit(g), g.offset, ":offset=");
    LabelledNumeral(ToAssignee(f), f.limit, ToAssignee(g), g.limit, ":limit=");
    LabelledNumeral(ToStatus(f), f.assigneeId, ToStatus(g), g.assigneeId, ":assignee=");
    assert ToStatus(f)[|"status="|..] == f.status;
    assert ToStatus(g)[|"status="|..] == g.status;
  }

  /** Two different queries never share a key, whatever text the status is. */
  lemma KeyInjective(f: ListFilter, g: ListFilter)
    ensures TeamTasksKey(f) == TeamTasksKey(g) <==> f == g
  {
    if TeamTasksKey(f) == TeamTasksKey(g) {
      TeamOfKey(f.teamId, ToOffset(f), g.teamId, ToOffset(g));
      RestInjective(f, g);
    }
  }

  /** The pattern of one team matches exactly that team's keys, so team 1 never reaches team 10. */
  lemma PatternHitsOwnTeam(team: int, f: ListFilter)
    ensures GlobMatch(TeamPattern(team), TeamTasksKey(f)) <==> team == f.teamId
  {
    var key := TeamTasksKey(f);
    PatternIsPrefix(team, key);
    if TeamPrefix(team) <= key {
      var tail := key[|TeamPrefix(team)|..];
      assert TeamPrefix(team) + tail == key;
      TeamOfKey(team, tail, f.teamId, ToOffset(f));
    }
  }

  lemma KeyGrows(prefix: string, head: string, name: string, n: int)
    ensures prefix + (head + name + FormatInt(n)) == (prefix + head) + name + FormatInt(n)
  {
  }

  lemma KeyStart(f: ListFilter)
    ensures TeamPrefix(f.teamId) + ToStatus(f) == "tasks:team:" + FormatInt(f.teamId) + ":status=" + f.status
  {
    assert ":" + "status=" == ":status=";
  }

  /** The texts of a key and of a pattern. */
  lemma KeyText(f: ListFilter)
    ensures TeamTasksKey(f) == "tasks:team:" + FormatInt(f.teamId) + ":status=" + f.status
                               + ":assignee=" + FormatInt(f.assigneeId) + ":limit=" + FormatInt(f.limit)
                               + ":offset=" + FormatInt(f.offset)
    ensures TeamPattern(f.teamId) == "tasks:team:" + FormatInt(f.teamId) + ":" + "*"
  {
    var p := TeamPrefix(f.teamId);
    KeyStart(f);
    KeyGrows(p, ToStatus(f), ":assignee=", f.assigneeId);
    KeyGrows(p, ToAssignee(f), ":limit=", f.limit);
    KeyGrows(p, ToLimit(f), ":offset=", f.offset);
  }
}
