/**
 The names in the transfer folder (src/localwallet/signer/file.py): what the files of a reference are called, and that
 no two of them are ever called the same.
 */
module FileNames {
  const LOCAL := "localwallet-"
  const TEXT_SUFFIX := ".psbt.b64"

  function UnsignedName(ref: string): string {
    LOCAL + "unsigned-" + ref + TEXT_SUFFIX
  }

  function ChecksumName(ref: string): string {
    UnsignedName(ref) + ".sha256"
  }

  function BinaryName(ref: string): string {
    UnsignedName(ref)[..|UnsignedName(ref)| - |TEXT_SUFFIX|] + ".psbt"
  }

  function SignedName(ref: string): string {
    LOCAL + "signed-" + ref + TEXT_SUFFIX
  }

  /** The four names of a reference differ in their last character or in the one after the common prefix. */
  lemma NameMarks(ref: string)
    ensures var (u, b, c, s) := (UnsignedName(ref), BinaryName(ref), ChecksumName(ref), SignedName(ref));
            && u[|u| - 1] == '4' && u[12] == 'u' && |u| == |ref| + 30
            && b[|b| - 1] == 't' && b[12] == 'u' && |b| == |ref| + 26
            && c[|c| - 1] == '6' && c[12] == 'u' && |c| == |ref| + 37
            && s[|s| - 1] == '4' && s[12] == 's' && |s| == |ref| + 28
    ensures UnsignedName(ref)[21..21 + |ref|] == ref && BinaryName(ref)[21..21 + |ref|] == ref
    ensures ChecksumName(ref)[21..21 + |ref|] == ref && SignedName(ref)[19..19 + |ref|] == ref
  {
    assert |LOCAL| == 12 && |"unsigned-"| == 9 && |"signed-"| == 7 && |TEXT_SUFFIX| == 9;
    assert UnsignedName(ref)[..21 + |ref|] == LOCAL + "unsigned-" + ref;
    assert BinaryName(ref) == LOCAL + "unsigned-" + ref + ".psbt";
  }

  /** No two files of any two references share a name, unless they are the same file of the same reference. */
  lemma NamesNeverCollide(a: string, b: string)
    ensures UnsignedName(a) == UnsignedName(b) || BinaryName(a) == BinaryName(b) ==> a == b
    ensures ChecksumName(a) == ChecksumName(b) || SignedName(a) == SignedName(b) ==> a == b
    ensures UnsignedName(a) != BinaryName(b) && UnsignedName(a) != ChecksumName(b) && BinaryName(a) != ChecksumName(b)
    ensures SignedName(a) != UnsignedName(b) && SignedName(a) != BinaryName(b) && SignedName(a) != ChecksumName(b)
  {
    NameMarks(a);
    NameMarks(b);
  }

  function ExportNames(ref: string): set<string> {
    {UnsignedName(ref), BinaryName(ref), ChecksumName(ref)}
  }

  function TempName(tag: string): string {
    "tmp" + tag + ".tmp"
  }

  /** A temporary file never has one of the names of an export. */
  lemma TempNeverOurs(tag: string, ref: string)
    ensures TempName(tag) !in ExportNames(ref) && TempName(tag) != SignedName(ref)
  {
    assert TempName(tag)[0] == 't';
    assert UnsignedName(ref)[0] == 'l' && ChecksumName(ref)[0] == 'l' && SignedName(ref)[0] == 'l';
    assert BinaryName(ref)[0] == 'l';
  }

  lemma NamesAreWritten(ref: string)
    ensures UnsignedName(ref) == "localwallet-unsigned-" + ref + ".psbt.b64"
    ensures ChecksumName(ref) == "localwallet-unsigned-" + ref + ".psbt.b64.sha256"
    ensures BinaryName(ref) == "localwallet-unsigned-" + ref + ".psbt"
    ensures SignedName(ref) == "localwallet-signed-" + ref + ".psbt.b64"
  {
    assert UnsignedName(ref)[..|UnsignedName(ref)| - |TEXT_SUFFIX|] == LOCAL + "unsigned-" + ref;
  }
}
