/** The registration file as the text the starters read and write. */
module RegFile {
  import opened Etcd
  import opened Cohort

  /** Neither separator occurs in a host name or an address. */
  predicate Plain(e: HostIp) {
    '\t' !in e.host && '\n' !in e.host && '\t' !in e.ip && '\n' !in e.ip
  }

  predicate AllPlain(entries: seq<HostIp>) {
    forall e | e in entries :: Plain(e)
  }

  function Line(e: HostIp): string { e.host + ['\t'] + (e.ip + ['\n']) }

  function Render(entries: seq<HostIp>): string {
    if entries == [] then "" else Line(entries[0]) + Render(entries[1..])
  }

  /** A registration is a host and an address, with a tab between and a newline behind. */
  lemma LineLayout(host: string, ip: string)
    ensures Render([HostIp(host, ip)]) == host + "\t" + ip + "\n"
  {
    assert Render([HostIp(host, ip)]) == Line(HostIp(host, ip)) + "";
  }

  /** Reads up to a delimiter: what comes before it, and what is left behind it; nothing at the end of the file. */
  function ReadTo(s: string, delim: char): Option<(string, string)> {
    if s == "" then None
    else if s[0] == delim then Some(("", s[1..]))
    else
      match ReadTo(s[1..], delim)
      case None => None
      case Some((text, rest)) => Some(([s[0]] + text, rest))
  }

  function Count(s: string): nat {
    if s == "" then 0 else (if s[0] == '\n' then 1 else 0) + Count(s[1..])
  }

  lemma {:induction false} ReadToDelim(text: string, delim: char, rest: string)
    requires delim !in text
    ensures ReadTo(text + [delim] + rest, delim) == Some((text, rest))
  {
    var s := text + [delim] + rest;
    if text == "" {
      assert s[1..] == rest;
    } else {
      ReadToDelim(text[1..], delim, rest);
      assert s[1..] == text[1..] + [delim] + rest;
      assert [text[0]] + text[1..] == text;
    }
  }

  lemma ReadLine(e: HostIp, rest: string)
    requires Plain(e)
    ensures ReadTo(Line(e) + rest, '\t') == Some((e.host, e.ip + ['\n'] + rest))
    ensures ReadTo(e.ip + ['\n'] + rest, '\n') == Some((e.ip, rest))
  {
    assert Line(e) + rest == e.host + ['\t'] + (e.ip + ['\n'] + rest);
    ReadToDelim(e.host, '\t', e.ip + ['\n'] + rest);
    ReadToDelim(e.ip, '\n', rest);
  }

  lemma {:induction false} CountAdds(a: string, b: string)
    ensures Count(a + b) == Count(a) + Count(b)
  {
    if a == "" {
      assert a + b == b;
    } else {
      CountAdds(a[1..], b);
      assert (a + b)[1..] == a[1..] + b;
    }
  }

  lemma {:induction false} CountNone(s: string)
    requires '\n' !in s
    ensures Count(s) == 0
  {
    if s != "" {
      CountNone(s[1..]);
    }
  }

  /** The number of lines is the number of registrations. */
  lemma {:induction false} CountRender(entries: seq<HostIp>)
    requires AllPlain(entries)
    ensures Count(Render(entries)) == |entries|
  {
    if entries != [] {
      var e := entries[0];
      assert e in entries && '\n' !in e.host + ['\t'];
      CountRender(entries[1..]);
      CountAdds(Line(e), Render(entries[1..]));
      CountAdds(e.host + ['\t'], e.ip + ['\n']);
      CountAdds(e.ip, ['\n']);
      CountNone(e.host + ['\t']);
      CountNone(e.ip);
    }
  }

  lemma {:induction false} RenderAppend(entries: seq<HostIp>, e: HostIp)
    ensures Render(entries + [e]) == Render(entries) + Line(e)
  {
    if entries == [] {
      assert ([] + [e])[1..] == [];
    } else {
      RenderAppend(entries[1..], e);
      assert (entries + [e])[1..] == entries[1..] + [e];
    }
  }

  const CHUNK: nat := 1024

  /** Counts the lines chunk by chunk, wherever the chunk borders fall. */
  method CountLines(content: string) returns (count: nat)
    ensures count == Count(content)
  {
    count := 0;
    var pos := 0;
    while pos < |content|
      invariant pos <= |content| && count == Count(content[..pos])
    {
      var next := if pos + CHUNK < |content| then pos + CHUNK else |content|;
      var chunk := 0;
      for i := pos to next
        invariant chunk == Count(content[pos..i])
      {
        if content[i] == '\n' {
          chunk := chunk + 1;
        }
        CountAdds(content[pos..i], [content[i]]);
        assert content[pos..i + 1] == content[pos..i] + [content[i]];
      }
      CountAdds(content[..pos], content[pos..next]);
      assert content[..next] == content[..pos] + content[pos..next];
      count, pos := count + chunk, next;
    }
    assert content[..pos] == content;
  }

  class RegFile {
    var content: string  // empty also when the file does not exist

    constructor ()
      ensures content == Render([])
    {
      content := "";
    }

    /** Whether the host or its address is among the first lines; it looks at no more than a partial file can hold. */
    method HasRegistered(size: nat, me: HostIp, ghost entries: seq<HostIp>) returns (found: bool)
      requires content == Render(entries) && AllPlain(entries) && |entries| < size
      ensures found <==> Clashes(entries, me)
    {
      var rest := content;
      var i := 0;
      while i < size - 1
        invariant i <= |entries| && rest == Render(entries[i..])
        invariant !Clashes(entries[..i], me)
      {
        if i < |entries| {
          ReadLine(entries[i], Render(entries[i + 1..]));
          assert entries[..i + 1] == entries[..i] + [entries[i]];
          assert entries[i..][1..] == entries[i + 1..];
        }
        var host := ReadTo(rest, '\t');
        if host.None? {
          break;
        }
        if me.host == host.value.0 {
          assert entries[i] in entries;
          return true;
        }
        var ip := ReadTo(host.value.1, '\n');
        if ip.None? {
          break;
        }
        if me.ip == ip.value.0 {
          assert entries[i] in entries;
          return true;
        }
        rest := ip.value.1;
        i := i + 1;
      }
      assert i == |entries| && entries[..i] == entries;
      return false;
    }

    /** Registers a host in the file; without a count it has been refused and the file is as before. */
    method Register(size: nat, me: HostIp, ghost entries: seq<HostIp>) returns (count: Option<nat>)
      requires content == Render(entries) && AllPlain(entries) && Plain(me)
      modifies this
      ensures match Cohort.Register(size, entries, me)
              case None => count.None? && content == old(content)
              case Some(file) => count == Some(|file|) && content == Render(file)
    {
      var lines := CountLines(content);
      CountRender(entries);
      if 0 < lines < size {
        var known := HasRegistered(size, me, entries);
        if known {
          return None;
        }
      }
      RenderAppend(entries, me);
      assert Render([me]) == Line(me);
      if lines < size {
        content := content + Line(me);
        count := Some(lines + 1);
      } else {
        content := Line(me);
        count := Some(1);
      }
    }

    /** Derives the cluster from the first lines, skipping hosts and addresses that occur again; what registering has
        made has none of those. */
    method ParseCluster(size: nat, port: string, ghost entries: seq<HostIp>) returns (cluster: string)
      requires content == Render(entries) && AllPlain(entries)
      ensures cluster == ClusterString(Kept(Take(entries, size)), port)
      ensures Distinct(entries) ==>
        cluster == ClusterString(if size < |entries| then entries[..size] else entries, port)
    {
      cluster := "";
      var rest := content;
      var hosts: set<string>, ips: set<string> := {}, {};
      var i := 0;
      while i < size
        invariant i <= |entries| && i <= size && rest == Render(entries[i..])
        invariant hosts == Hosts(entries[..i]) && ips == Ips(Kept(entries[..i]))
        invariant cluster == ClusterString(Kept(entries[..i]), port) && (i > 0 ==> Kept(entries[..i]) != [])
        decreases size - i
      {
        NextEntry(entries, i);
        var next := ReadEntry(rest);
        if next.None? {
          assert Take(entries, size) == entries[..i];
          break;
        }
        var e := next.value.0;
        rest := next.value.1;
        KeptNext(entries, i, port);
        var known := e.host in hosts;
        hosts := hosts + {e.host};
        if !known && e.ip !in ips {
          ips := ips + {e.ip};
          if i > 0 {
            cluster := cluster + ",";
          }
          cluster := cluster + Site(e, port);
        }
        i := i + 1;
      }
      assert entries[..|entries|] == entries;
      if Distinct(entries) {
        DistinctIsKept(Take(entries, size));
      }
    }
  }

  /** One line of the file, as the parser reads it; nothing if the file ends first. */
  function ReadEntry(s: string): Option<(HostIp, string)> {
    match ReadTo(s, '\t')
    case None => None
    case Some((host, behind)) =>
      match ReadTo(behind, '\n')
      case None => None
      case Some((ip, rest)) => Some((HostIp(host, ip), rest))
  }

  lemma NextEntry(entries: seq<HostIp>, i: nat)
    requires AllPlain(entries) && i <= |entries|
    ensures ReadEntry(Render(entries[i..])) ==
            if i < |entries| then Some((entries[i], Render(entries[i + 1..]))) else None
  {
    if i < |entries| {
      assert entries[i] in entries && entries[i..][1..] == entries[i + 1..];
      ReadLine(entries[i], Render(entries[i + 1..]));
    }
  }

  function Hosts(entries: seq<HostIp>): set<string> { set e | e in entries :: e.host }

  function Ips(entries: seq<HostIp>): set<string> { set e | e in entries :: e.ip }

  /** What is kept of a file: the entries whose host has not occurred before, nor their address among those kept. */
  function Kept(entries: seq<HostIp>): seq<HostIp> {
    if entries == [] then []
    else
      var front, last := entries[..|entries| - 1], entries[|entries| - 1];
      if last.host in Hosts(front) || last.ip in Ips(Kept(front)) then Kept(front) else Kept(front) + [last]
  }

  lemma KeptNext(entries: seq<HostIp>, i: nat, port: string)
    requires i < |entries|
    ensures var front, kept, e := entries[..i], Kept(entries[..i]), entries[i];
      && Hosts(entries[..i + 1]) == Hosts(front) + {e.host}
      && Kept(entries[..i + 1]) == (if e.host in Hosts(front) || e.ip in Ips(kept) then kept else kept + [e])
      && Ips(kept + [e]) == Ips(kept) + {e.ip}
      && ClusterString(kept + [e], port) == (if kept != [] then ClusterString(kept, port) + "," else "") + Site(e, port)
  {
    assert entries[..i + 1][..i] == entries[..i];
    assert entries[..i + 1] == entries[..i] + [entries[i]];
    ClusterNext(Kept(entries[..i]), entries[i], port);
  }

  lemma ClusterNext(kept: seq<HostIp>, e: HostIp, port: string)
    ensures Ips(kept + [e]) == Ips(kept) + {e.ip}
    ensures ClusterString(kept + [e], port) ==
            (if kept != [] then ClusterString(kept, port) + "," else "") + Site(e, port)
  {
    assert (kept + [e])[..|kept|] == kept;
  }

  /** Whatever the file, no host and no address is kept twice, and its first entry is. */
  lemma {:induction false} KeptIsDistinct(entries: seq<HostIp>)
    ensures Distinct(Kept(entries)) && Hosts(Kept(entries)) <= Hosts(entries)
    ensures entries != [] ==> Kept(entries) != [] && Kept(entries)[0] == entries[0]
  {
    if entries != [] {
      var front, last := entries[..|entries| - 1], entries[|entries| - 1];
      KeptIsDistinct(front);
      assert entries == front + [last];
      if last.host !in Hosts(front) && last.ip !in Ips(Kept(front)) {
        OneMoreIsDistinct(Kept(front), last);
      }
    }
  }

  lemma OneMoreIsDistinct(kept: seq<HostIp>, e: HostIp)
    requires Distinct(kept) && e.host !in Hosts(kept) && e.ip !in Ips(kept)
    ensures Distinct(kept + [e]) && Hosts(kept + [e]) == Hosts(kept) + {e.host}
  {
    assert forall k | 0 <= k < |kept| :: kept[k].host in Hosts(kept) && kept[k].ip in Ips(kept);
  }

  /** Of a file without repetitions everything is kept. */
  lemma {:induction false} DistinctIsKept(entries: seq<HostIp>)
    requires Distinct(entries)
    ensures Kept(entries) == entries
  {
    if entries != [] {
      var front := entries[..|entries| - 1];
      DistinctIsKept(front);
      assert entries == front + [entries[|entries| - 1]];
    }
  }
}
