/** File names inside a chunk directory. */
module ChunkNames {
  import opened Prelude
  import opened Text

  /** A file of the cache directory: a published chunk, or a writer's temporary file. */
  datatype Path = Chunk(sha: Sha) | Temp(sha: Sha, nonce: nat)

  /** The name a path has on disk for the process `pid`. */
  function FileName(pid: nat, path: Path): string {
    match path
    case Chunk(sha) => HexBytes(sha.digest)
    case Temp(sha, nonce) => HexBytes(sha.digest) + ".tmp." + Decimal(pid) + "." + Decimal(nonce)
  }

  function ParseSha(name: string): Option<Sha> {
    if |name| != 40 then None
    else
      match ParseHex(name)
      case Some(digest) => Some(ChunkHash(digest))
      case None => None
  }

  lemma DigitsEnd(a: string, b: string, rest: string, rest': string)
    requires a + "." + rest == b + "." + rest' && |a| <= |b|
    requires forall i | 0 <= i < |b| :: IsDigit(b[i])
    ensures a == b && rest == rest'
  {
    var x, y := a + "." + rest, b + "." + rest';
    assert x[|a|] == '.' && (|a| < |b| ==> y[|a|] == b[|a|] && IsDigit(b[|a|]));
    assert x[..|a|] == a && y[..|b|] == b;
    assert x[|a| + 1..] == rest && y[|b| + 1..] == rest';
  }

  /** No two writers share a temporary name, also of different processes, and no temporary name is a
      chunk's. */
  lemma FileNamesInjective(pid: nat, a: Path, pid': nat, b: Path)
    requires FileName(pid, a) == FileName(pid', b)
    ensures a == b && (a.Temp? ==> pid == pid')
  {
    hide Decimal;
    var x, y := FileName(pid, a), FileName(pid', b);
    assert x[..40] == HexBytes(a.sha.digest) && y[..40] == HexBytes(b.sha.digest);
    ParseHexInverts(a.sha.digest);
    ParseHexInverts(b.sha.digest);
    if a.Temp? && b.Temp? {
      var p, q, m, n := Decimal(pid), Decimal(pid'), Decimal(a.nonce), Decimal(b.nonce);
      assert x[45..] == p + "." + m && y[45..] == q + "." + n;
      if |p| <= |q| {
        DigitsEnd(p, q, m, n);
      } else {
        DigitsEnd(q, p, n, m);
      }
      DecimalInjective(pid, pid');
      DecimalInjective(a.nonce, b.nonce);
    }
  }

  /** Exactly which file names are taken for chunks, and which ones for which. */
  lemma ParseShaIff(name: string, sha: Sha)
    ensures ParseSha(name) == Some(sha) <==>
            |name| == 40 && forall i | 0 <= i < 20 :: SpellByte(name[2 * i], name[2 * i + 1], sha.digest[i])
  {
    if |name| == 40 {
      ParseHexIff(name, sha.digest);
    }
  }

  /** Scanning a directory recovers exactly the chunks published in it: temporary files, however
      many a crash left behind, are never taken for chunks. */
  lemma ScanFindsOnlyChunks(pid: nat, path: Path)
    ensures ParseSha(FileName(pid, path)) == match path case Chunk(sha) => Some(sha) case Temp(_, _) => None
  {
    ParseHexInverts(path.sha.digest);
  }
}
