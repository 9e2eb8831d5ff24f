/**
 The airgap signer's transfer folder (src/localwallet/signer/file.py): file names, bounded reads, and a three-file
 export that survives being stopped between its atomic writes.

 Files are strings of bytes. Base64 decoding, PSBT parsing, hashing, UTF-8 and whitespace are parameters; a call
 says which existing files cannot be read and how far each of its writes gets. The replacement of a file by a
 finished temporary one is a single step, as the file system promises.
 */
module FileExport {
  import opened Basics
  import opened FileNames

  type Bytes = string
  type Folder = map<string, Bytes>

  datatype Env = Env(
    decode: string -> Option<Bytes>,
    parses: Bytes -> bool,
    sha256: Bytes -> string,
    refDigest: string -> string,
    utf8: Bytes -> Option<string>,
    isSpace: char -> bool)

  const MAX_TEXT_CHARS := 200000
  const MAX_FILE_BYTES := 204096
  const READ_CHUNK := 65536
  const REF_LENGTH := 8
  const MAGIC: Bytes := ['p', 's', 'b', 't', 255 as char]

  predicate Ascii(s: string) {
    forall i :: 0 <= i < |s| ==> s[i] as int < 128
  }

  predicate Alnum(ch: char) {
    '0' <= ch <= '9' || 'A' <= ch <= 'Z' || 'a' <= ch <= 'z'
  }

  predicate AllAlnum(s: string) {
    forall i :: 0 <= i < |s| ==> Alnum(s[i])
  }

  /** Base64 is ASCII and never grows, ASCII is its own UTF-8, digests are letters and digits, a newline is whitespace. */
  ghost predicate Lawful(env: Env) {
    && (forall t :: env.decode(t).Some? ==> Ascii(t) && |env.decode(t).value| <= |t|)
    && (forall b :: Ascii(b) ==> env.utf8(b) == Some(b))
    && (forall t :: |env.refDigest(t)| >= REF_LENGTH && AllAlnum(env.refDigest(t)))
    && env.isSpace('\n')
  }

  // ---------------------------------------------------------------- names

  function SanitizeRef(env: Env, txRef: string): string
    requires |env.refDigest(txRef)| >= REF_LENGTH
  {
    if txRef != "" && AllAlnum(txRef) then (if |txRef| <= REF_LENGTH then txRef else txRef[..REF_LENGTH])
    else env.refDigest(txRef)[..REF_LENGTH]
  }

  /** One to eight letters and digits, so never a separator or a dot; and sanitizing again changes nothing. */
  lemma SanitizedRefIsSafe(env: Env, txRef: string)
    requires Lawful(env)
    ensures var ref := SanitizeRef(env, txRef);
            1 <= |ref| <= REF_LENGTH && AllAlnum(ref) && SanitizeRef(env, ref) == ref
  {
  }

  /** The reference itself, cut to eight characters, when it is letters and digits; else the start of its digest. */
  lemma SanitizedRefIs(env: Env, txRef: string)
    requires Lawful(env)
    ensures var ref := SanitizeRef(env, txRef);
            if txRef != "" && AllAlnum(txRef) then ref <= txRef && |ref| == Min(|txRef|, 8)
            else ref <= env.refDigest(txRef) && |ref| == 8
  {
  }

  // ---------------------------------------------------------------- bounded reads

  /**
   The whole file when it fits, nothing otherwise; and never more than one byte over the limit is held.
   */
  method ReadBounded(file: Bytes, limit: nat) returns (data: Option<Bytes>, buffered: nat)
    ensures data == if |file| <= limit then Some(file) else None
    ensures buffered <= limit + 1 && buffered <= |file|
  {
    var chunks: Bytes := "";
    var remaining := limit + 1;
    while remaining > 0
      invariant |chunks| + remaining == limit + 1 && remaining >= 0
      invariant |chunks| <= |file| && chunks == file[..|chunks|]
    {
      var n := Min(Min(READ_CHUNK, remaining), |file| - |chunks|);
      if n == 0 {
        assert file[..|file|] == file;
        return Some(chunks), |chunks|;
      }
      chunks := chunks + file[|chunks|..|chunks| + n];
      remaining := remaining - n;
    }
    return None, |chunks|;
  }

  // ---------------------------------------------------------------- whitespace

  function DropLeft(isSpace: char -> bool, s: string): string {
    if s == "" || !isSpace(s[0]) then s else DropLeft(isSpace, s[1..])
  }

  function DropRight(isSpace: char -> bool, s: string): string {
    if s == "" || !isSpace(s[|s| - 1]) then s else DropRight(isSpace, s[..|s| - 1])
  }

  function Strip(isSpace: char -> bool, s: string): string {
    DropRight(isSpace, DropLeft(isSpace, s))
  }

  predicate Trimmed(isSpace: char -> bool, s: string) {
    s == "" || (!isSpace(s[0]) && !isSpace(s[|s| - 1]))
  }

  lemma {:induction false} DropRightKeepsHead(isSpace: char -> bool, s: string)
    ensures DropRight(isSpace, s) <= s
    ensures var r := DropRight(isSpace, s); r != "" ==> !isSpace(r[|r| - 1])
    decreases |s|
  {
    if s != "" && isSpace(s[|s| - 1]) {
      DropRightKeepsHead(isSpace, s[..|s| - 1]);
    }
  }

  lemma {:induction false} DropLeftStops(isSpace: char -> bool, s: string)
    ensures var r := DropLeft(isSpace, s); r != "" ==> !isSpace(r[0])
  {
    if s != "" && isSpace(s[0]) {
      DropLeftStops(isSpace, s[1..]);
    }
  }

  lemma StripTrims(isSpace: char -> bool, s: string)
    ensures Trimmed(isSpace, Strip(isSpace, s))
  {
    DropLeftStops(isSpace, s);
    DropRightKeepsHead(isSpace, DropLeft(isSpace, s));
  }

  /** The line that was written is read back: stripping undoes the newline. */
  lemma StripUndoesNewline(isSpace: char -> bool, content: string)
    requires isSpace('\n') && content != "" && Trimmed(isSpace, content)
    ensures Strip(isSpace, content + "\n") == content
  {
    var line := content + "\n";
    assert line[0] == content[0] && line[..|line| - 1] == content;
    assert DropLeft(isSpace, line) == line;
    assert DropRight(isSpace, content) == content;
    assert DropRight(isSpace, line) == DropRight(isSpace, line[..|line| - 1]);
  }

  predicate AllSpace(isSpace: char -> bool, s: string) {
    forall i :: 0 <= i < |s| ==> isSpace(s[i])
  }

  lemma {:induction false} DropLeftDrops(isSpace: char -> bool, s: string)
    ensures exists left :: AllSpace(isSpace, left) && s == left + DropLeft(isSpace, s)
  {
    if s == "" || !isSpace(s[0]) {
      assert AllSpace(isSpace, "") && s == "" + DropLeft(isSpace, s);
    } else {
      DropLeftDrops(isSpace, s[1..]);
      var left :| AllSpace(isSpace, left) && s[1..] == left + DropLeft(isSpace, s[1..]);
      assert AllSpace(isSpace, [s[0]] + left) && s == [s[0]] + left + DropLeft(isSpace, s);
    }
  }

  lemma {:induction false} DropRightDrops(isSpace: char -> bool, s: string)
    ensures exists right :: AllSpace(isSpace, right) && s == DropRight(isSpace, s) + right
    decreases |s|
  {
    if s == "" || !isSpace(s[|s| - 1]) {
      assert AllSpace(isSpace, "") && s == DropRight(isSpace, s) + "";
    } else {
      var init := s[..|s| - 1];
      DropRightDrops(isSpace, init);
      var right :| AllSpace(isSpace, right) && init == DropRight(isSpace, init) + right;
      assert AllSpace(isSpace, right + [s[|s| - 1]]) && s == DropRight(isSpace, s) + (right + [s[|s| - 1]]);
    }
  }

  /** The text stands between whitespace. */
  ghost predicate Surrounded(isSpace: char -> bool, s: string, text: string) {
    exists left, right :: Surrounds(isSpace, s, left, text, right)
  }

  predicate Surrounds(isSpace: char -> bool, s: string, left: string, text: string, right: string) {
    AllSpace(isSpace, left) && AllSpace(isSpace, right) && s == left + text + right
  }

  lemma BothSides(isSpace: char -> bool, s: string, left: string, text: string, right: string)
    requires AllSpace(isSpace, left) && AllSpace(isSpace, right) && s == left + (text + right)
    ensures Surrounded(isSpace, s, text)
  {
    assert left + (text + right) == left + text + right;
    assert Surrounds(isSpace, s, left, text, right);
  }

  /** Stripping takes whitespace off both ends, and all of it. */
  lemma StripTakesWhitespace(isSpace: char -> bool, s: string)
    ensures Trimmed(isSpace, Strip(isSpace, s)) && Surrounded(isSpace, s, Strip(isSpace, s))
  {
    var stripped, dropped := Strip(isSpace, s), DropLeft(isSpace, s);
    StripTrims(isSpace, s);
    DropLeftDrops(isSpace, s);
    var left :| AllSpace(isSpace, left) && s == left + dropped;
    DropRightDrops(isSpace, dropped);
    var right :| AllSpace(isSpace, right) && dropped == stripped + right;
    BothSides(isSpace, s, left, stripped, right);
  }

  // ---------------------------------------------------------------- one write

  /**
   How far a write gets: to its end; not even to a temporary file; until writing or replacing raises or the process
   stops, with so many bytes in the temporary file, which is removed unless the process stopped or that failed too;
   or until the process stops just after the replacement.
   */
  datatype Fate = Completes | NoTemporary | Halts(written: nat, leftover: bool) | StopsReplaced

  /** One use of a write: the random part of its temporary name, and how far it gets. */
  datatype Write = Write(tag: string, fate: Fate)

  predicate Lands(folder: Folder, w: Write) {
    TempName(w.tag) !in folder && (w.fate.Completes? || w.fate.StopsReplaced?)
  }

  /** The folder a write leaves behind, and whether the export goes on after it. */
  function Landed(folder: Folder, name: string, data: Bytes, w: Write): (Folder, bool) {
    if Lands(folder, w) then (folder[name := data], w.fate.Completes?)
    else if TempName(w.tag) !in folder && w.fate.Halts? && w.fate.leftover then
      (folder[TempName(w.tag) := data[..Min(w.fate.written, |data|)]], false)
    else (folder, false)
  }

  /**
   However far it gets, a write leaves its target untouched or whole, and everything else untouched but for one new
   temporary file holding a beginning of the data; when the export goes on, exactly the target has changed.
   */
  lemma WriteIsAtomic(folder: Folder, name: string, data: Bytes, w: Write)
    requires name != TempName(w.tag)
    ensures var (after, goesOn) := Landed(folder, name, data, w);
            var temp := TempName(w.tag);
            && (if Lands(folder, w) then Holds(after, name, data) else Untouched(folder, after, {name}))
            && (forall other :: other != name && other != temp ==> Untouched(folder, after, {other}))
            && (temp in folder ==> after == folder)
            && (temp in after && temp !in folder ==> w.fate.Halts? && after[temp] <= data)
            && (goesOn ==> after == folder[name := data])
  {
  }

  // ---------------------------------------------------------------- one export

  datatype Refusal =
    | NoText
    | TooLong
    | NotBase64
    | NotAPsbt
    | CollidesWithSigned
    | Unreadable
    | ExistingTooBig
    | DifferentContent
    | WriteFailed

  /** A validated payload and where it goes. */
  datatype Payload = Payload(ref: string, content: string, raw: Bytes)

  datatype Call = Call(psbt: string, txRef: string, unreadable: set<string>, text: Write, binary: Write, sidecar: Write)

  function Validated(env: Env, call: Call): (r: Result<Payload, Refusal>)
    requires |env.refDigest(call.txRef)| >= REF_LENGTH
    ensures r.Success? ==> env.decode(r.value.content) == Some(r.value.raw)
  {
    var content := Strip(env.isSpace, call.psbt);
    if content == "" then Failure(NoText)
    else if |content| > MAX_TEXT_CHARS then Failure(TooLong)
    else
      var raw := env.decode(content);
      if raw.None? then Failure(NotBase64)
      else if !(MAGIC <= raw.value) || !env.parses(raw.value) then Failure(NotAPsbt)
      else Success(Payload(SanitizeRef(env, call.txRef), content, raw.value))
  }

  function TextOf(p: Payload): Bytes {
    p.content + "\n"
  }

  function SidecarOf(env: Env, p: Payload): Bytes {
    env.sha256(TextOf(p)) + "\n"
  }

  function ReadExisting(folder: Folder, name: string, unreadable: set<string>): Result<Option<Bytes>, Refusal> {
    if name !in folder then Success(None)
    else if name in unreadable then Failure(Unreadable)
    else if |folder[name]| > MAX_FILE_BYTES then Failure(ExistingTooBig)
    else Success(Some(folder[name]))
  }

  /** The overwrite policy: same content may be exported again, anything else in the way refuses. */
  function Obstacle(env: Env, folder: Folder, p: Payload, unreadable: set<string>): Option<Refusal> {
    if SignedName(p.ref) in folder then Some(CollidesWithSigned)
    else
      var text := ReadExisting(folder, UnsignedName(p.ref), unreadable);
      if text.Failure? then Some(text.error)
      else if text.value.Some? && env.utf8(text.value.value).None? then Some(Unreadable)
      else if text.value.Some? && Strip(env.isSpace, env.utf8(text.value.value).value) != p.content then
        Some(DifferentContent)
      else
        var binary := ReadExisting(folder, BinaryName(p.ref), unreadable);
        if binary.Failure? then Some(binary.error)
        else if binary.value.Some? && binary.value.value != p.raw then Some(DifferentContent)
        else None
  }

  /** Text, binary, sidecar, until one of them does not go on. */
  function Written(env: Env, folder: Folder, p: Payload, call: Call): (Folder, bool) {
    var (f1, goesOn1) := Landed(folder, UnsignedName(p.ref), TextOf(p), call.text);
    if !goesOn1 then (f1, false)
    else
      var (f2, goesOn2) := Landed(f1, BinaryName(p.ref), p.raw, call.binary);
      if !goesOn2 then (f2, false) else Landed(f2, ChecksumName(p.ref), SidecarOf(env, p), call.sidecar)
  }

  /** `WriteFailed` is an export that raised in a write, or that never answered because the process stopped. */
  function Export(env: Env, folder: Folder, call: Call): (Folder, Result<Payload, Refusal>)
    requires |env.refDigest(call.txRef)| >= REF_LENGTH
  {
    var p := Validated(env, call);
    if p.Failure? then (folder, Failure(p.error))
    else
      var obstacle := Obstacle(env, folder, p.value, call.unreadable);
      if obstacle.Some? then (folder, Failure(obstacle.value))
      else
        var (after, done) := Written(env, folder, p.value, call);
        (after, if done then Success(p.value) else Failure(WriteFailed))
  }

  /** A text is exported exactly when, stripped, it is Base64 of a bounded document that opens and parses as a PSBT. */
  predicate IsPsbtText(env: Env, content: string, raw: Bytes) {
    && content != "" && |content| <= 200000 && env.decode(content) == Some(raw)
    && |raw| >= 5 && raw[..4] == "psbt" && raw[4] == 255 as char && env.parses(raw)
  }

  lemma ValidatedExactly(env: Env, call: Call, p: Payload)
    requires |env.refDigest(call.txRef)| >= REF_LENGTH
    ensures var content := Strip(env.isSpace, call.psbt);
            && (Validated(env, call) == Success(p) <==>
                  p.ref == SanitizeRef(env, call.txRef) && p.content == content && IsPsbtText(env, content, p.raw))
            && (Validated(env, call) == Failure(NoText) <==> content == "")
            && (Validated(env, call) == Failure(TooLong) <==> |content| > 200000)
            && (Validated(env, call) == Failure(NotBase64) <==>
                  0 < |content| <= 200000 && env.decode(content).None?)
  {
    var raw := env.decode(Strip(env.isSpace, call.psbt));
    if raw.Some? {
      assert MAGIC <= raw.value <==> |raw.value| >= 5 && raw.value[..4] == "psbt" && raw.value[4] == 255 as char by {
        assert MAGIC == "psbt" + [255 as char];
        if |raw.value| >= 5 {
          assert raw.value[..5] == raw.value[..4] + [raw.value[4]];
        }
      }
    }
  }

  /** An existing file in the way: it can be read, is not too large, and says this. */
  predicate Says(folder: Folder, name: string, unreadable: set<string>, says: Bytes -> bool) {
    name in folder ==> name !in unreadable && |folder[name]| <= 204096 && says(folder[name])
  }

  /** The overwrite policy over any folder. */
  lemma NoObstacleExactly(env: Env, folder: Folder, p: Payload, unreadable: set<string>)
    ensures Obstacle(env, folder, p, unreadable).None? <==>
              && SignedName(p.ref) !in folder
              && Says(folder, UnsignedName(p.ref), unreadable,
                      data => env.utf8(data).Some? && Strip(env.isSpace, env.utf8(data).value) == p.content)
              && Says(folder, BinaryName(p.ref), unreadable, data => data == p.raw)
    ensures Obstacle(env, folder, p, unreadable) == Some(CollidesWithSigned) <==> SignedName(p.ref) in folder
  {
  }

  // ---------------------------------------------------------------- interrupted runs

  /** An export attempt, complete or stopped within any of its writes; or the user drops a signed file into the folder. */
  datatype Event = Attempted(call: Call) | SignedArrives(ref: string, data: Bytes)

  function Apply(env: Env, folder: Folder, e: Event): Folder
    requires e.Attempted? ==> |env.refDigest(e.call.txRef)| >= REF_LENGTH
  {
    match e
    case Attempted(call) => Export(env, folder, call).0
    case SignedArrives(ref, data) => folder[SignedName(ref) := data]
  }

  ghost function Run(env: Env, events: seq<Event>): Folder
    requires Lawful(env)
  {
    if events == [] then map[] else Apply(env, Run(env, events[..|events| - 1]), events[|events| - 1])
  }

  predicate SignedArrived(events: seq<Event>, ref: string) {
    exists i :: 0 <= i < |events| && events[i].SignedArrives? && events[i].ref == ref
  }

  /** The payload of the first attempt on a reference that got its text in place. */
  ghost function FirstWritten(env: Env, events: seq<Event>, ref: string): Option<Payload>
    requires Lawful(env)
  {
    if events == [] then None
    else
      var init, last := events[..|events| - 1], events[|events| - 1];
      var earlier := FirstWritten(env, init, ref);
      if earlier.Some? || !last.Attempted? || !Lands(Run(env, init), last.call.text) || SignedArrived(init, ref)
      then earlier
      else
        var p := Validated(env, last.call);
        if p.Success? && p.value.ref == ref then Some(p.value) else None
  }

  predicate Holds(folder: Folder, name: string, data: Bytes) {
    name in folder && folder[name] == data
  }

  predicate AbsentOr(folder: Folder, name: string, data: Bytes) {
    name in folder ==> folder[name] == data
  }

  /** Nothing of the reference is there; or its text is, and the other two files are absent or derived from it. */
  predicate Derived(env: Env, folder: Folder, ref: string, first: Option<Payload>) {
    match first
    case None => UnsignedName(ref) !in folder && BinaryName(ref) !in folder && ChecksumName(ref) !in folder
    case Some(p) =>
      && p.ref == ref
      && Holds(folder, UnsignedName(ref), TextOf(p))
      && AbsentOr(folder, BinaryName(ref), p.raw)
      && AbsentOr(folder, ChecksumName(ref), SidecarOf(env, p))
      && (ChecksumName(ref) in folder ==> BinaryName(ref) in folder)
  }

  /** A payload that came through validation. */
  ghost predicate Genuine(env: Env, p: Payload) {
    && p.content != "" && Trimmed(env.isSpace, p.content) && |p.content| <= MAX_TEXT_CHARS
    && env.decode(p.content) == Some(p.raw) && MAGIC <= p.raw && env.parses(p.raw)
  }

  lemma ValidatedIsGenuine(env: Env, call: Call)
    requires Lawful(env) && Validated(env, call).Success?
    ensures Genuine(env, Validated(env, call).value)
  {
    StripTrims(env.isSpace, call.psbt);
  }

  /** A written text passes its own overwrite check. */
  lemma WrittenTextReadsBack(env: Env, p: Payload)
    requires Lawful(env) && Genuine(env, p)
    ensures |TextOf(p)| <= MAX_FILE_BYTES && |p.raw| <= MAX_FILE_BYTES
    ensures env.utf8(TextOf(p)) == Some(TextOf(p)) && Strip(env.isSpace, TextOf(p)) == p.content
  {
    assert Ascii(p.content);
    assert Ascii(TextOf(p));
    StripUndoesNewline(env.isSpace, p.content);
  }

  /**
   The overwrite policy over a derived folder, exactly: an export is let through if and only if no signed file
   waits, the files it must read can be read, and its content is the first one, if there was one.
   */
  lemma LetThroughExactly(env: Env, folder: Folder, ref: string, first: Option<Payload>, p: Payload,
                          unreadable: set<string>)
    requires Lawful(env) && Derived(env, folder, ref, first) && p.ref == ref && Genuine(env, p)
    requires first.Some? ==> Genuine(env, first.value)
    ensures Obstacle(env, folder, p, unreadable).None? <==>
              && SignedName(ref) !in folder
              && (first.Some? ==> first.value.content == p.content)
              && (UnsignedName(ref) in folder ==> UnsignedName(ref) !in unreadable)
              && (BinaryName(ref) in folder ==> BinaryName(ref) !in unreadable)
  {
    WrittenTextReadsBack(env, p);
    if first.Some? {
      WrittenTextReadsBack(env, first.value);
    }
  }

  function TempNames(call: Call): set<string> {
    {TempName(call.text.tag), TempName(call.binary.tag), TempName(call.sidecar.tag)}
  }

  lemma WritesTouchTheirNames(env: Env, folder: Folder, p: Payload, call: Call, name: string)
    requires name !in ExportNames(p.ref) + TempNames(call)
    ensures Untouched(folder, Written(env, folder, p, call).0, {name})
  {
    assert name != TempName(call.text.tag) && name != TempName(call.binary.tag) && name != TempName(call.sidecar.tag);
  }

  /**
   Nothing but the three files of its reference and its own temporary files is ever touched, and an export refused
   before writing touches nothing.
   */
  lemma OthersUntouched(env: Env, folder: Folder, call: Call, name: string)
    requires Lawful(env)
    ensures var (after, r) := Export(env, folder, call);
            && (name !in ExportNames(SanitizeRef(env, call.txRef)) + TempNames(call) ==> Untouched(folder, after, {name}))
            && (r.Failure? && r.error != WriteFailed ==> after == folder)
  {
    var p := Validated(env, call);
    if p.Success? && name !in ExportNames(p.value.ref) + TempNames(call) {
      WritesTouchTheirNames(env, folder, p.value, call, name);
    }
  }

  lemma TextWriteIsDerived(env: Env, folder: Folder, ref: string, first: Option<Payload>, p: Payload, w: Write)
    requires Derived(env, folder, ref, first) && p.ref == ref && (first.Some? ==> first.value == p)
    ensures var after := Landed(folder, UnsignedName(ref), TextOf(p), w).0;
            Derived(env, after, ref, if Lands(folder, w) then Some(p) else first)
  {
    NamesNeverCollide(ref, ref);
    TempNeverOurs(w.tag, ref);
  }

  lemma LaterWriteIsDerived(env: Env, folder: Folder, ref: string, p: Payload, w: Write, name: string, data: Bytes)
    requires Derived(env, folder, ref, Some(p)) && p.ref == ref
    requires (name == BinaryName(ref) && data == p.raw) ||
             (name == ChecksumName(ref) && data == SidecarOf(env, p) && BinaryName(ref) in folder)
    ensures Derived(env, Landed(folder, name, data, w).0, ref, Some(p))
  {
    NamesNeverCollide(ref, ref);
    TempNeverOurs(w.tag, ref);
  }

  /** Writing keeps the folder derived, from the first content, wherever it stops. */
  lemma WrittenIsDerived(env: Env, folder: Folder, ref: string, first: Option<Payload>, p: Payload, call: Call)
    requires Derived(env, folder, ref, first) && p.ref == ref && (first.Some? ==> first.value == p)
    ensures Derived(env, Written(env, folder, p, call).0, ref, if Lands(folder, call.text) then Some(p) else first)
  {
    TextWriteIsDerived(env, folder, ref, first, p, call.text);
    var (f1, goesOn1) := Landed(folder, UnsignedName(ref), TextOf(p), call.text);
    if goesOn1 {
      LaterWriteIsDerived(env, f1, ref, p, call.binary, BinaryName(ref), p.raw);
      var (f2, goesOn2) := Landed(f1, BinaryName(ref), p.raw, call.binary);
      if goesOn2 {
        LaterWriteIsDerived(env, f2, ref, p, call.sidecar, ChecksumName(ref), SidecarOf(env, p));
      }
    }
  }

  lemma OtherRefKeepsDerived(env: Env, folder: Folder, after: Folder, ref: string, first: Option<Payload>)
    requires Derived(env, folder, ref, first)
    requires Untouched(folder, after, ExportNames(ref))
    ensures Derived(env, after, ref, first)
  {
    assert UnsignedName(ref) in ExportNames(ref) && BinaryName(ref) in ExportNames(ref);
    assert ChecksumName(ref) in ExportNames(ref);
  }

  predicate Untouched(folder: Folder, after: Folder, names: set<string>) {
    forall name :: name in names ==>
      (name in after <==> name in folder) && (name in folder ==> after[name] == folder[name])
  }

  lemma OtherRefsNames(call: Call, ref: string, other: string, name: string)
    requires ref != other && name in ExportNames(ref)
    ensures name !in ExportNames(other) + TempNames(call)
  {
    NamesNeverCollide(ref, other);
    NamesNeverCollide(other, ref);
    TempNeverOurs(call.text.tag, ref);
    TempNeverOurs(call.binary.tag, ref);
    TempNeverOurs(call.sidecar.tag, ref);
  }

  lemma ExportLeavesOtherRef(env: Env, folder: Folder, call: Call, ref: string)
    requires Lawful(env) && SanitizeRef(env, call.txRef) != ref
    ensures Untouched(folder, Export(env, folder, call).0, ExportNames(ref))
  {
    var after := Export(env, folder, call).0;
    forall name | name in ExportNames(ref)
      ensures (name in after <==> name in folder) && (name in folder ==> after[name] == folder[name])
    {
      OtherRefsNames(call, ref, SanitizeRef(env, call.txRef), name);
      OthersUntouched(env, folder, call, name);
      assert name in {name};
    }
  }

  lemma OtherEventsKeepDerived(env: Env, folder: Folder, ref: string, first: Option<Payload>, e: Event)
    requires Lawful(env) && Derived(env, folder, ref, first)
    requires e.Attempted? ==> SanitizeRef(env, e.call.txRef) != ref
    ensures Derived(env, Apply(env, folder, e), ref, first)
  {
    if e.Attempted? {
      ExportLeavesOtherRef(env, folder, e.call, ref);
    } else {
      NamesNeverCollide(e.ref, ref);
    }
    OtherRefKeepsDerived(env, folder, Apply(env, folder, e), ref, first);
  }

  lemma SignedIsNobodys(call: Call, ref: string, other: string)
    ensures SignedName(ref) !in ExportNames(other) + TempNames(call)
  {
    NamesNeverCollide(ref, other);
    TempNeverOurs(call.text.tag, ref);
    TempNeverOurs(call.binary.tag, ref);
    TempNeverOurs(call.sidecar.tag, ref);
  }

  lemma OneUntouched(folder: Folder, after: Folder, name: string)
    requires Untouched(folder, after, {name})
    ensures name in after <==> name in folder
  {
    assert name in {name};
  }

  lemma AttemptLeavesSigned(env: Env, folder: Folder, ref: string, call: Call)
    requires Lawful(env)
    ensures SignedName(ref) in Export(env, folder, call).0 <==> SignedName(ref) in folder
  {
    SignedIsNobodys(call, ref, SanitizeRef(env, call.txRef));
    OthersUntouched(env, folder, call, SignedName(ref));
    OneUntouched(folder, Export(env, folder, call).0, SignedName(ref));
  }

  lemma SignedOnlyArrives(env: Env, folder: Folder, ref: string, e: Event)
    requires Lawful(env)
    ensures SignedName(ref) in Apply(env, folder, e) <==>
              SignedName(ref) in folder || (e.SignedArrives? && e.ref == ref)
  {
    if e.Attempted? {
      AttemptLeavesSigned(env, folder, ref, e.call);
    } else {
      NamesNeverCollide(e.ref, ref);
    }
  }

  lemma SamePayload(env: Env, a: Payload, b: Payload)
    requires Genuine(env, a) && Genuine(env, b) && a.ref == b.ref && a.content == b.content
    ensures a == b
  {
  }

  lemma AttemptKeepsDerived(env: Env, folder: Folder, ref: string, first: Option<Payload>, call: Call)
    requires Lawful(env) && Derived(env, folder, ref, first) && SanitizeRef(env, call.txRef) == ref
    requires first.Some? ==> Genuine(env, first.value)
    ensures var p := Validated(env, call);
            Derived(env, Export(env, folder, call).0, ref,
                    if first.Some? || p.Failure? || SignedName(ref) in folder || !Lands(folder, call.text) then first
                    else Some(p.value))
  {
    var p := Validated(env, call);
    if p.Success? {
      ValidatedIsGenuine(env, call);
      LetThroughExactly(env, folder, ref, first, p.value, call.unreadable);
      if Obstacle(env, folder, p.value, call.unreadable).None? {
        if first.Some? {
          SamePayload(env, first.value, p.value);
        }
        WrittenIsDerived(env, folder, ref, first, p.value, call);
      }
    }
  }

  /**
   Over every sequence of export attempts on any references, each stopped anywhere within its three writes, with
   unreadable files and signed files arriving in between: for each reference the three files are absent, or they are
   the text of the first content written and, each if present, the binary and checksum derived from that content.
   */
  lemma {:induction false} RunsStayDerived(env: Env, events: seq<Event>, ref: string)
    requires Lawful(env)
    ensures Derived(env, Run(env, events), ref, FirstWritten(env, events, ref))
    ensures FirstWritten(env, events, ref).Some? ==> Genuine(env, FirstWritten(env, events, ref).value)
    ensures SignedName(ref) in Run(env, events) <==> SignedArrived(events, ref)
  {
    if events == [] {
    } else {
      var init, last := events[..|events| - 1], events[|events| - 1];
      RunsStayDerived(env, init, ref);
      var folder, first := Run(env, init), FirstWritten(env, init, ref);
      SignedOnlyArrives(env, folder, ref, last);
      ArrivalsGrow(events, ref);
      if last.Attempted? && Validated(env, last.call).Success? {
        ValidatedIsGenuine(env, last.call);
      }
      if last.Attempted? && SanitizeRef(env, last.call.txRef) == ref {
        AttemptKeepsDerived(env, folder, ref, first, last.call);
      } else {
        OtherEventsKeepDerived(env, folder, ref, first, last);
      }
    }
  }

  lemma ArrivalsGrow(events: seq<Event>, ref: string)
    requires events != []
    ensures var init, last := events[..|events| - 1], events[|events| - 1];
            SignedArrived(events, ref) <==>
              SignedArrived(init, ref) || (last.SignedArrives? && last.ref == ref)
  {
    var init, last := events[..|events| - 1], events[|events| - 1];
    if SignedArrived(init, ref) {
      var i :| 0 <= i < |init| && init[i].SignedArrives? && init[i].ref == ref;
      assert events[i] == init[i];
    }
    if SignedArrived(events, ref) {
      var i :| 0 <= i < |events| && events[i].SignedArrives? && events[i].ref == ref;
      assert i < |init| ==> init[i] == events[i];
    }
  }

  /** Every existing file can be read, every temporary name is new, and no write stops. */
  predicate Uninterrupted(folder: Folder, call: Call) {
    && call.unreadable == {}
    && TempNames(call) !! folder.Keys
    && call.text.fate.Completes? && call.binary.fate.Completes? && call.sidecar.fate.Completes?
  }

  lemma UninterruptedWrites(env: Env, folder: Folder, p: Payload, call: Call)
    requires Uninterrupted(folder, call)
    ensures var (after, done) := Written(env, folder, p, call);
            && done
            && Holds(after, UnsignedName(p.ref), TextOf(p))
            && Holds(after, BinaryName(p.ref), p.raw)
            && Holds(after, ChecksumName(p.ref), SidecarOf(env, p))
  {
    NamesNeverCollide(p.ref, p.ref);
    TempNeverOurs(call.binary.tag, p.ref);
    TempNeverOurs(call.sidecar.tag, p.ref);
    assert TempName(call.text.tag) in TempNames(call) && TempName(call.binary.tag) in TempNames(call);
    assert TempName(call.sidecar.tag) in TempNames(call);
  }

  /** An export of whatever kind succeeds exactly when nothing is in its way and every write of it completes. */
  lemma ExportSucceedsExactly(env: Env, folder: Folder, call: Call)
    requires Lawful(env)
    ensures var v := Validated(env, call);
            var (after, r) := Export(env, folder, call);
            && (r.Success? <==>
                  && v.Success? && Obstacle(env, folder, v.value, call.unreadable).None?
                  && TempNames(call) !! folder.Keys
                  && call.text.fate.Completes? && call.binary.fate.Completes? && call.sidecar.fate.Completes?)
            && (r.Success? ==>
                  && r == v
                  && after == folder[UnsignedName(v.value.ref) := TextOf(v.value)]
                                    [BinaryName(v.value.ref) := v.value.raw]
                                    [ChecksumName(v.value.ref) := SidecarOf(env, v.value)])
  {
    var v := Validated(env, call);
    if v.Success? {
      TempNeverOurs(call.binary.tag, v.value.ref);
      TempNeverOurs(call.sidecar.tag, v.value.ref);
      assert TempName(call.text.tag) in TempNames(call) && TempName(call.binary.tag) in TempNames(call);
      assert TempName(call.sidecar.tag) in TempNames(call);
    }
  }

  /**
   From any reachable folder an uninterrupted export of a valid payload succeeds if and only if no signed file has
   arrived for its reference and no different content was written first. When it succeeds all three files are
   complete; when it does not, the folder is unchanged.
   */
  lemma RerunCompletes(env: Env, events: seq<Event>, call: Call)
    requires Lawful(env) && Validated(env, call).Success?
    ensures var p := Validated(env, call).value;
            var folder := Run(env, events);
            var first := FirstWritten(env, events, p.ref);
            var (after, r) := Export(env, folder, call);
            Uninterrupted(folder, call) ==>
              && (r.Success? <==> !SignedArrived(events, p.ref) && (first.Some? ==> first.value.content == p.content))
              && (r.Success? ==>
                    && Holds(after, UnsignedName(p.ref), p.content + "\n")
                    && Holds(after, BinaryName(p.ref), p.raw)
                    && Holds(after, ChecksumName(p.ref), env.sha256(p.content + "\n") + "\n"))
              && (r.Failure? ==> after == folder)
              && (r.Failure? && !SignedArrived(events, p.ref) ==> r.error == DifferentContent)
  {
    var p := Validated(env, call).value;
    var folder, first := Run(env, events), FirstWritten(env, events, p.ref);
    RunsStayDerived(env, events, p.ref);
    ValidatedIsGenuine(env, call);
    LetThroughExactly(env, folder, p.ref, first, p, {});
    if first.Some? {
      WrittenTextReadsBack(env, first.value);
    }
    if Uninterrupted(folder, call) {
      UninterruptedWrites(env, folder, p, call);
    }
  }

  // ---------------------------------------------------------------- the signer

  class FilePsbtSigner {
    const env: Env
    /** The transfer folder. */
    var files: Folder

    constructor (env: Env, files: Folder)
      ensures this.env == env && this.files == files
    {
      this.env, this.files := env, files;
    }

    /** A temporary file beside the target, filled, then put in the target's place; removed again when that fails. */
    method AtomicWrite(name: string, data: Bytes, w: Write) returns (goesOn: bool)
      requires name != TempName(w.tag)
      modifies this`files
      ensures (files, goesOn) == Landed(old(files), name, data, w)
    {
      var temp := TempName(w.tag);
      if w.fate.NoTemporary? || temp in files {
        return false;
      }
      files := files[temp := ""];
      if w.fate.Halts? {
        files := files[temp := data[..Min(w.fate.written, |data|)]];
        if !w.fate.leftover {
          files := files - {temp};
          assert files == old(files);
        }
        assert w.fate.leftover ==> files == old(files)[temp := data[..Min(w.fate.written, |data|)]];
        return false;
      }
      files := files[temp := data];
      files := files[name := files[temp]] - {temp};
      assert files == old(files)[name := data];
      goesOn := w.fate.Completes?;
    }

    method ReadExistingBounded(name: string, unreadable: set<string>) returns (r: Result<Option<Bytes>, Refusal>)
      ensures r == ReadExisting(files, name, unreadable)
    {
      if name !in files {
        return Success(None);
      }
      if name in unreadable {
        return Failure(Unreadable);
      }
      var data, _ := ReadBounded(files[name], MAX_FILE_BYTES);
      r := if data.None? then Failure(ExistingTooBig) else Success(data);
    }

    method CheckExisting(p: Payload, unreadable: set<string>) returns (obstacle: Option<Refusal>)
      ensures obstacle == Obstacle(env, files, p, unreadable)
    {
      if SignedName(p.ref) in files {
        return Some(CollidesWithSigned);
      }
      var text := ReadExistingBounded(UnsignedName(p.ref), unreadable);
      if text.Failure? {
        return Some(text.error);
      }
      if text.value.Some? {
        var decoded := env.utf8(text.value.value);
        if decoded.None? {
          return Some(Unreadable);
        }
        if Strip(env.isSpace, decoded.value) != p.content {
          return Some(DifferentContent);
        }
      }
      var binary := ReadExistingBounded(BinaryName(p.ref), unreadable);
      if binary.Failure? {
        return Some(binary.error);
      }
      obstacle := if binary.value.Some? && binary.value.value != p.raw then Some(DifferentContent) else None;
    }

    method ExportUnsigned(call: Call) returns (r: Result<Payload, Refusal>)
      requires |env.refDigest(call.txRef)| >= REF_LENGTH
      modifies this`files
      ensures (files, r) == Export(env, old(files), call)
    {
      var validated := Validated(env, call);
      if validated.Failure? {
        return Failure(validated.error);
      }
      var p := validated.value;
      var obstacle := CheckExisting(p, call.unreadable);
      if obstacle.Some? {
        return Failure(obstacle.value);
      }
      TempNeverOurs(call.text.tag, p.ref);
      var goesOn := AtomicWrite(UnsignedName(p.ref), TextOf(p), call.text);
      if !goesOn {
        return Failure(WriteFailed);
      }
      TempNeverOurs(call.binary.tag, p.ref);
      goesOn := AtomicWrite(BinaryName(p.ref), p.raw, call.binary);
      if !goesOn {
        return Failure(WriteFailed);
      }
      TempNeverOurs(call.sidecar.tag, p.ref);
      goesOn := AtomicWrite(ChecksumName(p.ref), SidecarOf(env, p), call.sidecar);
      r := if goesOn then Success(p) else Failure(WriteFailed);
    }
  }
}
