/** Cache keys: base names, random suffixes, and what a prefix lookup can and cannot return. */
module Keys {
  import opened Common
  import opened Api

  const INFO_EXT := ".narinfo"
  const NAR_EXT := ".nar.zstd"

  function InfoBase(hash: string): string { hash + INFO_EXT }

  function NarBase(name: string): string { name + NAR_EXT }

  predicate DotFree(s: string) { forall i :: 0 <= i < |s| ==> s[i] != '.' }

  /** The text before and after the first dot. */
  function SplitOnce(path: string): (r: Option<(string, string)>)
    ensures r.None? <==> DotFree(path)
    ensures r.Some? ==> DotFree(r.value.0) && path == r.value.0 + "." + r.value.1
  {
    if path == "" then None
    else if path[0] == '.' then Some(("", path[1..]))
    else match SplitOnce(path[1..])
      case None => None
      case Some((left, right)) => Some(([path[0]] + left, right))
  }

  /** A base ending in a dash-free extension is a prefix of a suffixed key exactly if it is a prefix of what was
      suffixed: the dash and the random characters can never complete it. */
  lemma SuffixNeverCompletes(stem: string, ext: string, path: string, full: string)
    requires |ext| > 0 && ext[0] == '.' && forall i :: 0 <= i < |ext| ==> ext[i] != '-'
    requires Suffixed(path, full)
    ensures stem + ext <= full <==> stem + ext <= path
  {
    var base := stem + ext;
    assert path == full[..|path|] by {
      assert full[..|path|] == full[..|path| + 1][..|path|] == path;
    }
    assert base[|stem|] == ext[0] == '.';
    assert forall i :: |stem| < i < |base| ==> base[i] == ext[i - |stem|] != '-';
    assert full[|path|] == full[..|path| + 1][|path|] == '-';
    assert forall i :: |path| < i < |full| ==> full[i] == full[|path| + 1..][i - |path| - 1] != '.';
  }

  lemma SuffixedStartsWith(path: string, full: string)
    requires Suffixed(path, full)
    ensures path <= full
  {
    assert full[..|path|] == full[..|path| + 1][..|path|] == path;
  }

  lemma FirstDotsAlign(a: string, b: string, x: string, y: string)
    requires DotFree(a) && DotFree(b)
    requires a + "." + x <= b + "." + y
    ensures a == b && x <= y
  {
    var left, right := a + "." + x, b + "." + y;
    assert left[|a|] == '.' && right[|b|] == '.';
    assert forall i :: 0 <= i < |a| ==> left[i] == a[i] != '.';
    assert forall i :: 0 <= i < |b| ==> right[i] == b[i] != '.';
    assert left[..|a|] == a && right[..|b|] == b;
    assert left[|a| + 1..] == x && right[|b| + 1..] == y;
  }

  lemma Extensions(stem: string)
    ensures InfoBase(stem) == stem + "." + "narinfo"
    ensures NarBase(stem) == stem + "." + "nar.zstd"
  {
  }

  /** A narinfo lookup returns an entry that put_nar stored under an arbitrary path exactly if that path starts with the
      narinfo name looked for. */
  lemma InfoLookupOfAnyPath(hash: string, path: string, full: string)
    requires Suffixed(path, full)
    ensures InfoBase(hash) <= full <==> InfoBase(hash) <= path
  {
    SuffixNeverCompletes(hash, INFO_EXT, path, full);
  }

  lemma NarLookupOfAnyPath(name: string, path: string, full: string)
    requires Suffixed(path, full)
    ensures NarBase(name) <= full <==> NarBase(name) <= path
  {
    SuffixNeverCompletes(name, NAR_EXT, path, full);
  }

  /** A dash and at most four random characters. */
  predicate SuffixPart(s: string) {
    0 < |s| <= 1 + NONCE_LENGTH && s[0] == '-' && forall i :: 0 < i < |s| ==> Alphanumeric(s[i])
  }

  /** The request goes on where the path ends, with part of a suffix. */
  predicate IntoSuffix(request: string, path: string) {
    path <= request && SuffixPart(request[|path|..])
  }

  /** The NAR lookup for any request whatever returns this entry exactly if the request is the beginning of the path the
      entry was put under, or that path and the beginning of the entry's own suffix. */
  lemma AnyLookupOfEntry(request: string, path: string, full: string)
    requires Suffixed(path, full)
    ensures request <= full
            <==> request <= path || (IntoSuffix(request, path) && request[|path|..] <= full[|path|..])
  {
    SuffixedStartsWith(path, full);
    assert full[|path|] == full[..|path| + 1][|path|] == '-';
    assert forall i :: |path| < i < |full| ==> full[i] == full[|path| + 1..][i - |path| - 1];
    if request <= full {
      if |request| <= |path| {
        assert request == full[..|request|] == path[..|request|];
      } else {
        assert path == request[..|path|];
        assert request[|path|..] == full[|path|..][..|request| - |path|];
      }
    }
    if IntoSuffix(request, path) && request[|path|..] <= full[|path|..] {
      assert request == path + request[|path|..];
      assert full == path + full[|path|..];
    }
  }

  lemma CompleteSuffix(request: string, path: string) returns (full: string)
    requires IntoSuffix(request, path)
    ensures Suffixed(path, full) && request <= full
  {
    var part := request[|path| + 1..];
    var nonce := part + seq(NONCE_LENGTH - |part|, _ => '0');
    assert forall i :: 0 <= i < |part| ==> part[i] == request[|path|..][i + 1];
    AddSuffix(path, nonce);
    full := path + "-" + nonce;
    assert request == path + "-" + part;
  }

  /** Which requests can ever be answered with an entry put under `path`, whatever its suffix: the beginnings of the path,
      and the path with part of a suffix. So a request for another path is exact exactly if it is neither. */
  lemma AnyLookup(request: string, path: string)
    ensures (exists full :: Suffixed(path, full) && request <= full) <==> request <= path || IntoSuffix(request, path)
  {
    if full :| Suffixed(path, full) && request <= full {
      AnyLookupOfEntry(request, path, full);
    }
    if request <= path {
      AddSuffix(path, "0000");
      var full := path + "-" + "0000";
      AnyLookupOfEntry(request, path, full);
    } else if IntoSuffix(request, path) {
      var full := CompleteSuffix(request, path);
    }
  }

  /** Prefix lookup is exact on narinfo keys: random suffixes never make a lookup return another hash's entry. */
  lemma InfoLookupIsExact(hash: string, stored: string, full: string)
    requires DotFree(hash) && DotFree(stored)
    requires Suffixed(InfoBase(stored), full)
    ensures InfoBase(hash) <= full <==> hash == stored
  {
    SuffixNeverCompletes(hash, INFO_EXT, InfoBase(stored), full);
    Extensions(hash);
    Extensions(stored);
    if InfoBase(hash) <= InfoBase(stored) {
      FirstDotsAlign(hash, stored, "narinfo", "narinfo");
    }
  }

  lemma NarLookupIsExact(name: string, stored: string, full: string)
    requires DotFree(name) && DotFree(stored)
    requires Suffixed(NarBase(stored), full)
    ensures NarBase(name) <= full <==> name == stored
  {
    SuffixNeverCompletes(name, NAR_EXT, NarBase(stored), full);
    Extensions(name);
    Extensions(stored);
    if NarBase(name) <= NarBase(stored) {
      FirstDotsAlign(name, stored, "nar.zstd", "nar.zstd");
    }
  }

  /** A narinfo lookup never returns a NAR, and a NAR lookup never a narinfo. */
  lemma KindsNeverMix(a: string, b: string, nar: string, info: string)
    requires DotFree(a) && DotFree(b)
    requires Suffixed(NarBase(b), nar) && Suffixed(InfoBase(b), info)
    ensures !(InfoBase(a) <= nar) && !(NarBase(a) <= info)
  {
    SuffixNeverCompletes(a, INFO_EXT, NarBase(b), nar);
    SuffixNeverCompletes(a, NAR_EXT, InfoBase(b), info);
    Extensions(a);
    Extensions(b);
    assert "narinfo"[3] != "nar.zstd"[3];
    if InfoBase(a) <= NarBase(b) {
      FirstDotsAlign(a, b, "narinfo", "nar.zstd");
    }
    if NarBase(a) <= InfoBase(b) {
      FirstDotsAlign(a, b, "nar.zstd", "narinfo");
    }
  }

  /** Exactness is a matter of the keys the daemon itself builds: a NAR put under the path "h.narinfo" is what a later
      narinfo lookup for h finds, and a NAR lookup finds a longer name, or the path that it continues with part of the
      suffix. */
  lemma ForeignPathsAreNotExact()
    ensures Suffixed("h.narinfo", "h.narinfo-0000") && InfoBase("h") <= "h.narinfo-0000"
    ensures Suffixed(NarBase("ab"), "ab.nar.zstd-aZ09") && "a" <= "ab.nar.zstd-aZ09" && "ab.nar.zstd-a" <= "ab.nar.zstd-aZ09"
  {
    AddSuffix("h.narinfo", "0000");
    AddSuffix(NarBase("ab"), "aZ09");
    assert "h.narinfo" + "-" + "0000" == "h.narinfo-0000";
    assert NarBase("ab") + "-" + "aZ09" == "ab.nar.zstd-aZ09";
  }
}
