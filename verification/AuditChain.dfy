/** The hash-chained audit ledger: appending, verifying, and what a verified tip hash pins down. */
module AuditChain {
  import opened Common
  import opened JsonText

  const GENESIS_HASH: string := "0000000000000000000000000000000000000000000000000000000000000000"

  /** The four free-text columns that are hashed. */
  datatype Fields = Fields(actorEmail: string, action: string, resourceType: string, resourceId: string)

  /** The columns that are not. */
  datatype Unhashed = Unhashed(actor: Option<nat>, actorRole: string, ipAddress: Option<string>, isGenesis: bool)

  /** `payload` is its canonical JSON text. */
  datatype Entry = Entry(
    timestamp: int, id: nat, fields: Fields, payload: string, unhashed: Unhashed, previousHash: string, hash: string)

  /** The hash function and the timestamp rendering, both left abstract. */
  datatype Codec = Codec(sha256: string -> string, isoformat: int -> string)

  /** A digest in hexadecimal has 64 characters, and a rendered timestamp can be told from what follows
      it: the layout is fixed, and where a fraction is left out the next character differs. */
  ghost predicate IsCodec(c: Codec) {
    && (forall s :: |c.sha256(s)| == 64)
    && (forall t, u, x, y :: Stamped(c, t, x) == Stamped(c, u, y) ==> t == u)
  }

  function Stamped(c: Codec, t: int, rest: string): string {
    c.isoformat(t) + [':'] + rest
  }

  function Joined(f: Fields): string {
    f.actorEmail + [':'] + (f.action + [':'] + (f.resourceType + [':'] + f.resourceId))
  }

  function RawString(c: Codec, e: Entry): string {
    e.previousHash + ([':'] + Stamped(c, e.timestamp, Joined(e.fields) + [':'] + e.payload))
  }

  function CalculateHash(c: Codec, e: Entry): string {
    c.sha256(RawString(c, e))
  }

  // ---------------------------------------------------------------------
  // The chain
  // ---------------------------------------------------------------------

  function ExpectedPrevious(rows: seq<Entry>, i: nat): string
    requires i <= |rows|
  {
    if i == 0 then GENESIS_HASH else rows[i - 1].hash
  }

  predicate BlockOk(c: Codec, rows: seq<Entry>, i: nat)
    requires i < |rows|
  {
    rows[i].previousHash == ExpectedPrevious(rows, i) && rows[i].hash == CalculateHash(c, rows[i])
  }

  predicate Chain(c: Codec, rows: seq<Entry>) {
    forall i :: 0 <= i < |rows| ==> BlockOk(c, rows, i)
  }

  // ---------------------------------------------------------------------
  // Tamper evidence
  // ---------------------------------------------------------------------

  ghost predicate SameHistory(c: Codec, a: seq<Entry>, b: seq<Entry>) {
    |a| == |b| && forall i :: 0 <= i < |a| ==> RawString(c, a[i]) == RawString(c, b[i])
  }

  /** Two different hashed strings with one digest. */
  ghost predicate HasCollision(c: Codec, a: seq<Entry>, b: seq<Entry>) {
    exists i, j :: 0 <= i < |a| && 0 <= j < |b|
      && RawString(c, a[i]) != RawString(c, b[j]) && c.sha256(RawString(c, a[i])) == c.sha256(RawString(c, b[j]))
  }

  /** A hashed string whose digest is the genesis value. */
  ghost predicate HitsGenesis(c: Codec, a: seq<Entry>) {
    exists i :: 0 <= i < |a| && c.sha256(RawString(c, a[i])) == GENESIS_HASH
  }

  lemma ChainPrefix(c: Codec, rows: seq<Entry>, n: nat)
    requires Chain(c, rows) && n <= |rows|
    ensures Chain(c, rows[..n])
  {
    forall i | 0 <= i < n ensures BlockOk(c, rows[..n], i) {
      assert BlockOk(c, rows, i);
    }
  }

  lemma PreviousHashLength(c: Codec, rows: seq<Entry>)
    requires IsCodec(c) && Chain(c, rows) && rows != []
    ensures |rows[|rows| - 1].previousHash| == 64
  {
    var n := |rows| - 1;
    assert BlockOk(c, rows, n);
    if n > 0 {
      assert BlockOk(c, rows, n - 1);
    }
  }

  /** The first 64 characters of the hashed string are the pointer. */
  lemma SamePointer(c: Codec, a: seq<Entry>, b: seq<Entry>)
    requires IsCodec(c) && Chain(c, a) && Chain(c, b) && a != [] && b != []
    requires RawString(c, a[|a| - 1]) == RawString(c, b[|b| - 1])
    ensures a[|a| - 1].previousHash == b[|b| - 1].previousHash
  {
    var e, f := a[|a| - 1], b[|b| - 1];
    PreviousHashLength(c, a);
    PreviousHashLength(c, b);
    assert RawString(c, e)[..64] == e.previousHash && RawString(c, f)[..64] == f.previousHash;
  }

  /** A tip that points where a first block does has a predecessor with the genesis value for a hash. */
  lemma PointsAtGenesis(c: Codec, a: seq<Entry>, b: seq<Entry>)
    requires Chain(c, a) && Chain(c, b) && |a| == 1 && |b| > 1
    requires a[0].previousHash == b[|b| - 1].previousHash
    ensures HitsGenesis(c, b)
  {
    assert BlockOk(c, a, 0) && BlockOk(c, b, |b| - 1) && BlockOk(c, b, |b| - 2);
  }

  /** Two verified ledgers with one tip hash record the same history, back to genesis; otherwise they
      exhibit a SHA-256 collision or a preimage of the genesis value. */
  lemma {:induction false} TipDeterminesHistory(c: Codec, a: seq<Entry>, b: seq<Entry>)
    requires IsCodec(c) && Chain(c, a) && Chain(c, b) && a != [] && b != []
    requires a[|a| - 1].hash == b[|b| - 1].hash
    ensures SameHistory(c, a, b) || HasCollision(c, a, b) || HitsGenesis(c, a) || HitsGenesis(c, b)
    decreases |a|
  {
    var n, m := |a| - 1, |b| - 1;
    assert BlockOk(c, a, n) && BlockOk(c, b, m);
    if RawString(c, a[n]) == RawString(c, b[m]) {
      SamePointer(c, a, b);
      if n == 0 && m > 0 {
        PointsAtGenesis(c, a, b);
      } else if m == 0 && n > 0 {
        PointsAtGenesis(c, b, a);
      } else if n > 0 {
        ChainPrefix(c, a, n);
        ChainPrefix(c, b, m);
        TipDeterminesHistory(c, a[..n], b[..m]);
        LiftVerdict(c, a, b);
      }
    }
  }

  /** A verdict about the shorter ledgers carries over. */
  lemma LiftVerdict(c: Codec, a: seq<Entry>, b: seq<Entry>)
    requires a != [] && b != [] && RawString(c, a[|a| - 1]) == RawString(c, b[|b| - 1])
    ensures SameHistory(c, a[..|a| - 1], b[..|b| - 1]) ==> SameHistory(c, a, b)
    ensures HasCollision(c, a[..|a| - 1], b[..|b| - 1]) ==> HasCollision(c, a, b)
    ensures HitsGenesis(c, a[..|a| - 1]) ==> HitsGenesis(c, a)
    ensures HitsGenesis(c, b[..|b| - 1]) ==> HitsGenesis(c, b)
  {
    var a', b' := a[..|a| - 1], b[..|b| - 1];
    if SameHistory(c, a', b') {
      forall i | 0 <= i < |a| ensures RawString(c, a[i]) == RawString(c, b[i]) {
        if i < |a'| {
          assert RawString(c, a'[i]) == RawString(c, b'[i]);
        }
      }
    }
    if HasCollision(c, a', b') {
      var i, j :| 0 <= i < |a'| && 0 <= j < |b'|
        && RawString(c, a'[i]) != RawString(c, b'[j]) && c.sha256(RawString(c, a'[i])) == c.sha256(RawString(c, b'[j]));
      assert a'[i] == a[i] && b'[j] == b[j];
    }
  }

  // ---------------------------------------------------------------------
  // What the hashed string does not separate
  // ---------------------------------------------------------------------

  predicate ColonFree(f: Fields) {
    ':' !in f.actorEmail && ':' !in f.action && ':' !in f.resourceType && ':' !in f.resourceId
  }

  lemma {:induction false} SplitConcat(a: string, sep: char, b: string)
    ensures Split(a + [sep] + b, sep) == Split(a, sep) + Split(b, sep)
  {
    if a == [] {
      assert a + [sep] + b == [sep] + b;
    } else {
      assert (a + [sep] + b)[1..] == a[1..] + [sep] + b;
      SplitConcat(a[1..], sep, b);
    }
  }

  lemma {:induction false} SinglePiece(a: string, sep: char)
    requires |Split(a, sep)| == 1
    ensures Split(a, sep) == [a]
  {
    if a != [] {
      SinglePiece(a[1..], sep);
      assert [a[0]] + a[1..] == a;
    }
  }

  lemma SplitJoined(f: Fields)
    ensures Split(Joined(f), ':') ==
            Split(f.actorEmail, ':') + (Split(f.action, ':') + (Split(f.resourceType, ':') + Split(f.resourceId, ':')))
  {
    SplitConcat(f.resourceType, ':', f.resourceId);
    SplitConcat(f.action, ':', f.resourceType + [':'] + f.resourceId);
    SplitConcat(f.actorEmail, ':', f.action + [':'] + (f.resourceType + [':'] + f.resourceId));
  }

  lemma ColonFreeIsUnique(f: Fields, g: Fields)
    requires ColonFree(f) && Joined(f) == Joined(g)
    ensures f == g
  {
    SplitJoined(f);
    SplitJoined(g);
    SplitWhole(f.actorEmail, ':');
    SplitWhole(f.action, ':');
    SplitWhole(f.resourceType, ':');
    SplitWhole(f.resourceId, ':');
    var parts := Split(Joined(f), ':');
    assert |parts| == 4;
    SinglePiece(g.actorEmail, ':');
    SinglePiece(g.action, ':');
    SinglePiece(g.resourceType, ':');
    SinglePiece(g.resourceId, ':');
    assert parts == [f.actorEmail, f.action, f.resourceType, f.resourceId];
    assert parts == [g.actorEmail, g.action, g.resourceType, g.resourceId];
  }

  /** The widths of the four columns. */
  predicate Fits(f: Fields) {
    |f.actorEmail| <= 255 && |f.action| <= 100 && |f.resourceType| <= 100 && |f.resourceId| <= 100
  }

  /** The joined text read with its separators at `i`, `j` and `l`. */
  function CutAt(w: string, i: nat, j: nat, l: nat): Fields
    requires i < j < l < |w|
  {
    Fields(w[..i], w[i + 1..j], w[j + 1..l], w[l + 1..])
  }

  /** Three colons of the joined text cut it into other fields that fit their columns. */
  ghost predicate OtherReading(f: Fields) {
    exists i: nat, j: nat, l: nat ::
      i < j < l < |Joined(f)| && IsReading(Joined(f), i, j, l) && CutAt(Joined(f), i, j, l) != f
  }

  predicate IsReading(w: string, i: nat, j: nat, l: nat)
    requires i < j < l < |w|
  {
    w[i] == ':' && w[j] == ':' && w[l] == ':' && Fits(CutAt(w, i, j, l))
  }

  lemma CutJoins(w: string, i: nat, j: nat, l: nat)
    requires i < j < l < |w| && IsReading(w, i, j, l)
    ensures Joined(CutAt(w, i, j, l)) == w
  {
    var g := CutAt(w, i, j, l);
    assert w[j + 1..] == g.resourceType + [':'] + g.resourceId;
    assert w[i + 1..] == g.action + [':'] + w[j + 1..];
  }

  lemma JoinedCuts(g: Fields) returns (i: nat, j: nat, l: nat)
    requires Fits(g)
    ensures i < j < l < |Joined(g)| && IsReading(Joined(g), i, j, l) && CutAt(Joined(g), i, j, l) == g
  {
    i := |g.actorEmail|;
    j := i + 1 + |g.action|;
    l := j + 1 + |g.resourceType|;
    assert CutAt(Joined(g), i, j, l) == g;
  }

  /** Other fields with the same joined text exist, within the widths, exactly when there is such a cut. */
  lemma OtherReadingIff(f: Fields)
    ensures OtherReading(f) <==> exists g :: g != f && Fits(g) && Joined(g) == Joined(f)
  {
    if OtherReading(f) {
      var w := Joined(f);
      var i: nat, j: nat, l: nat :| i < j < l < |w| && IsReading(w, i, j, l) && CutAt(w, i, j, l) != f;
      CutJoins(w, i, j, l);
    }
    if g :| g != f && Fits(g) && Joined(g) == Joined(f) {
      var i, j, l := JoinedCuts(g);
    }
  }

  lemma CutAtColon(s: string) returns (x: string, y: string)
    requires ':' in s
    ensures s == x + [':'] + y
  {
    var i :| 0 <= i < |s| && s[i] == ':';
    x, y := s[..i], s[i + 1..];
  }

  /** The other reading of a record with a colon inside one of its fields. */
  lemma Ambiguous(f: Fields) returns (g: Fields)
    requires !ColonFree(f)
    ensures g != f && Joined(g) == Joined(f)
  {
    if ':' in f.actorEmail {
      var x, y := CutAtColon(f.actorEmail);
      g := f.(actorEmail := x, action := y + [':'] + f.action);
    } else if ':' in f.action {
      var x, y := CutAtColon(f.action);
      g := f.(actorEmail := f.actorEmail + [':'] + x, action := y);
    } else if ':' in f.resourceType {
      var x, y := CutAtColon(f.resourceType);
      g := f.(action := f.action + [':'] + x, resourceType := y);
    } else {
      var x, y := CutAtColon(f.resourceId);
      g := f.(resourceType := f.resourceType + [':'] + x, resourceId := y);
    }
  }

  /** A colon-free record has no other reading; one with a colon always has, unless the widths are in
      the way, which they are not for a joined text of at most a hundred characters. */
  lemma OtherReadingNeedsColon(f: Fields)
    ensures ColonFree(f) ==> !OtherReading(f)
    ensures !ColonFree(f) && |Joined(f)| <= 100 ==> OtherReading(f)
  {
    OtherReadingIff(f);
    if ColonFree(f) {
      forall g | Joined(g) == Joined(f) ensures g == f {
        ColonFreeIsUnique(f, g);
      }
    } else {
      var g := Ambiguous(f);
      assert |Joined(g)| <= 100 ==> Fits(g);
    }
  }

  /** What is hashed of fields and an object payload determines the payload and the joined fields. */
  lemma BodySplits(f: Fields, p: string, g: Fields, q: string)
    requires ObjectText(p) && ObjectText(q) && Joined(f) + [':'] + p == Joined(g) + [':'] + q
    ensures Joined(f) == Joined(g) && p == q
  {
    var w := Joined(f) + [':'] + p;
    assert w[|w| - |p|..] == p && w[|w| - |q|..] == q;
    assert w[|w| - |p| - 1] == ':' && w[|w| - |q| - 1] == ':';
    if |q| < |p| {
      var n := |p| - |q| - 1;
      assert p == p[..n] + [':'] + q;
      ObjectEndsInNoObject(p[..n], q);
    } else if |p| < |q| {
      var n := |q| - |p| - 1;
      assert q == q[..n] + [':'] + p;
      ObjectEndsInNoObject(q[..n], p);
    } else {
      assert w[..|w| - |p| - 1] == Joined(f) && w[..|w| - |q| - 1] == Joined(g);
    }
  }

  // ---------------------------------------------------------------------
  // The order of reading
  // ---------------------------------------------------------------------

  /** ORDER BY timestamp, id. */
  predicate Before(a: Entry, b: Entry) {
    a.timestamp < b.timestamp || (a.timestamp == b.timestamp && a.id < b.id)
  }

  ghost predicate Sorted(rows: seq<Entry>) {
    forall i, j :: 0 <= i < j < |rows| ==> Before(rows[i], rows[j])
  }

  /** The new row where the ordering puts it. */
  function Inserted(rows: seq<Entry>, e: Entry): seq<Entry> {
    if rows == [] || Before(rows[|rows| - 1], e) then rows + [e]
    else Inserted(rows[..|rows| - 1], e) + [rows[|rows| - 1]]
  }

  /** The unique index on `hash`, and a digest that is never the genesis value. */
  ghost predicate HashesDistinct(rows: seq<Entry>) {
    && (forall i, j :: 0 <= i < j < |rows| ==> rows[i].hash != rows[j].hash)
    && (forall i :: 0 <= i < |rows| ==> rows[i].hash != GENESIS_HASH)
  }

  lemma {:induction false} InsertedSplit(rows: seq<Entry>, e: Entry) returns (p: nat)
    ensures p <= |rows| && Inserted(rows, e) == rows[..p] + [e] + rows[p..]
    ensures p == |rows| <==> rows == [] || Before(rows[|rows| - 1], e)
    ensures p > 0 ==> Before(rows[p - 1], e)
    ensures forall i :: p <= i < |rows| ==> !Before(rows[i], e)
  {
    if rows == [] || Before(rows[|rows| - 1], e) {
      p := |rows|;
    } else {
      var front := rows[..|rows| - 1];
      p := InsertedSplit(front, e);
      assert front[..p] == rows[..p] && front[p..] + [rows[|rows| - 1]] == rows[p..];
    }
  }

  /** By timestamp, and by id within one timestamp. */
  ghost predicate InOrder(rows: seq<Entry>) {
    forall i, j :: 0 <= i < j < |rows| ==>
      rows[i].timestamp < rows[j].timestamp || (rows[i].timestamp == rows[j].timestamp && rows[i].id < rows[j].id)
  }

  /** Inserting a row with an id of its own keeps the others as they stand and the whole in order. */
  lemma InsertedKeepsOrder(rows: seq<Entry>, e: Entry) returns (p: nat)
    requires InOrder(rows) && forall i :: 0 <= i < |rows| ==> rows[i].id != e.id
    ensures p <= |rows| && Inserted(rows, e) == rows[..p] + [e] + rows[p..] && InOrder(Inserted(rows, e))
  {
    p := InsertedSplit(rows, e);
    assert forall i :: p <= i < |rows| ==> Before(e, rows[i]);
    forall i | 0 <= i < p ensures Before(rows[i], e) {
      assert i < p - 1 ==> Before(rows[i], rows[p - 1]);
    }
    OrderAround(rows, e, p);
  }

  lemma OrderAround(rows: seq<Entry>, e: Entry, p: nat)
    requires InOrder(rows) && p <= |rows|
    requires forall i :: 0 <= i < p ==> Before(rows[i], e)
    requires forall i :: p <= i < |rows| ==> Before(e, rows[i])
    ensures InOrder(rows[..p] + [e] + rows[p..])
  {
    var longer := rows[..p] + [e] + rows[p..];
    forall i, j | 0 <= i < j < |longer| ensures Before(longer[i], longer[j]) {
      var from, to := if i < p then i else i - 1, if j < p then j else j - 1;
      assert i != p && j != p ==> longer[i] == rows[from] && longer[j] == rows[to];
    }
  }

  // ---------------------------------------------------------------------
  // Rewriting one block
  // ---------------------------------------------------------------------

  function Without(rows: seq<Entry>, k: nat): seq<Entry>
    requires k < |rows|
  {
    rows[..k] + rows[k + 1..]
  }

  /** The ledger as it is read after row `k` was overwritten by `e`. */
  function ReRead(rows: seq<Entry>, k: nat, e: Entry): seq<Entry>
    requires k < |rows|
  {
    Inserted(Without(rows, k), e)
  }

  /** The ordering leaves `e` between the neighbours of row `k`. */
  predicate KeepsPlace(rows: seq<Entry>, k: nat, e: Entry)
    requires k < |rows|
  {
    (k > 0 ==> Before(rows[k - 1], e)) && (k + 1 < |rows| ==> !Before(rows[k + 1], e))
  }

  /** Overwritten in place, the chain holds exactly when the new block keeps the pointer, carries its own
      hash, and, unless it is the tip, keeps the old hash. */
  lemma InPlaceVerifiesIff(c: Codec, rows: seq<Entry>, k: nat, e: Entry)
    requires Chain(c, rows) && k < |rows|
    ensures Chain(c, rows[k := e]) <==>
              && e.previousHash == rows[k].previousHash && e.hash == CalculateHash(c, e)
              && (k + 1 < |rows| ==> e.hash == rows[k].hash)
  {
    var rows' := rows[k := e];
    assert BlockOk(c, rows, k);
    if Chain(c, rows') {
      assert BlockOk(c, rows', k);
      if k + 1 < |rows| {
        assert BlockOk(c, rows', k + 1) && BlockOk(c, rows, k + 1);
      }
    }
    if && e.previousHash == rows[k].previousHash && e.hash == CalculateHash(c, e)
       && (k + 1 < |rows| ==> e.hash == rows[k].hash) {
      forall i | 0 <= i < |rows'| ensures BlockOk(c, rows', i) {
        assert BlockOk(c, rows, i);
      }
    }
  }

  /** Where the overwritten row is read: at its old position exactly when it keeps its place. */
  lemma ReReadSplit(rows: seq<Entry>, k: nat, e: Entry) returns (p: nat)
    requires Sorted(rows) && k < |rows|
    ensures p < |rows| && ReRead(rows, k, e) == Without(rows, k)[..p] + [e] + Without(rows, k)[p..]
    ensures p == k <==> KeepsPlace(rows, k, e)
    ensures p == k ==> ReRead(rows, k, e) == rows[k := e]
  {
    var others := Without(rows, k);
    p := InsertedSplit(others, e);
    OthersAt(rows, k);
    PutBack(rows, k, e);
    if p > k {
      assert others[p - 1] == rows[p];
      assert k + 1 < p ==> Before(rows[k + 1], rows[p]);
    }
  }

  lemma OthersAt(rows: seq<Entry>, k: nat)
    requires k < |rows|
    ensures |Without(rows, k)| == |rows| - 1
    ensures forall i :: 0 <= i < |rows| - 1 ==> Without(rows, k)[i] == if i < k then rows[i] else rows[i + 1]
  {
  }

  lemma PutBack(rows: seq<Entry>, k: nat, e: Entry)
    requires k < |rows|
    ensures Without(rows, k)[..k] + [e] + Without(rows, k)[k..] == rows[k := e]
  {
    assert Without(rows, k)[..k] == rows[..k] && Without(rows, k)[k..] == rows[k + 1..];
  }

  /** Read at any other position it breaks the chain: too early, it stands between a block and its
      predecessor; too late, it leaves its successor without one. */
  lemma MovedBreaks(c: Codec, rows: seq<Entry>, k: nat, e: Entry, p: nat)
    requires Chain(c, rows) && k < |rows| && p < |rows| && p != k
    requires HashesDistinct(rows) && HashesDistinct(rows[k := e])
    ensures !Chain(c, Without(rows, k)[..p] + [e] + Without(rows, k)[p..])
  {
    var others := Without(rows, k);
    var rows' := others[..p] + [e] + others[p..];
    if p < k {
      assert rows'[p] == e && rows'[p + 1] == others[p] == rows[p];
      assert rows[k := e][k].hash == e.hash && (p > 0 ==> rows[k := e][p - 1].hash == rows[p - 1].hash);
      assert BlockOk(c, rows, p);
      assert !BlockOk(c, rows', p + 1);
    } else {
      assert rows'[k] == others[k] == rows[k + 1] && (k > 0 ==> rows'[k - 1] == others[k - 1] == rows[k - 1]);
      assert BlockOk(c, rows, k + 1);
      assert !BlockOk(c, rows', k);
    }
  }

  /** Overwriting a whole row of a verified ledger goes unnoticed by the next reading exactly when the new
      row keeps its place in the order, keeps the pointer, carries its own hash, and, unless it is the
      tip, keeps the old hash. */
  lemma RewriteVerifiesIff(c: Codec, rows: seq<Entry>, k: nat, e: Entry)
    requires Chain(c, rows) && Sorted(rows) && k < |rows|
    requires HashesDistinct(rows) && HashesDistinct(rows[k := e])
    ensures Chain(c, ReRead(rows, k, e)) <==>
              && KeepsPlace(rows, k, e)
              && e.previousHash == rows[k].previousHash && e.hash == CalculateHash(c, e)
              && (k + 1 < |rows| ==> e.hash == rows[k].hash)
  {
    var p := ReReadSplit(rows, k, e);
    if p == k {
      InPlaceVerifiesIff(c, rows, k, e);
    } else {
      MovedBreaks(c, rows, k, e, p);
    }
  }

  /** `e'` is another content for the row of `e`, under its pointer and hash, with the same hashed string. */
  ghost predicate Rewrites(c: Codec, e: Entry, e': Entry) {
    && e'.id == e.id && e'.previousHash == e.previousHash && e'.hash == e.hash
    && Fits(e'.fields) && ObjectText(e'.payload) && RawString(c, e') == RawString(c, e)
  }

  ghost predicate SameHashed(e: Entry, e': Entry) {
    e'.timestamp == e.timestamp && e'.fields == e.fields && e'.payload == e.payload
  }

  /** The hashed string determines the timestamp, the payload and the joined fields. */
  lemma HashedColumnsUnique(c: Codec, e: Entry, e': Entry)
    requires IsCodec(c) && ObjectText(e.payload) && ObjectText(e'.payload)
    requires e'.previousHash == e.previousHash && RawString(c, e') == RawString(c, e)
    ensures e'.timestamp == e.timestamp && e'.payload == e.payload && Joined(e'.fields) == Joined(e.fields)
    ensures ColonFree(e.fields) ==> SameHashed(e, e')
  {
    var n := |e.previousHash| + 1;
    var x, y := Joined(e.fields) + [':'] + e.payload, Joined(e'.fields) + [':'] + e'.payload;
    assert RawString(c, e)[n..] == Stamped(c, e.timestamp, x);
    assert RawString(c, e')[n..] == Stamped(c, e'.timestamp, y);
    assert e.timestamp == e'.timestamp;
    var m := |c.isoformat(e.timestamp)| + 1;
    assert Stamped(c, e.timestamp, x)[m..] == x && Stamped(c, e.timestamp, y)[m..] == y;
    BodySplits(e.fields, e.payload, e'.fields, e'.payload);
    if ColonFree(e.fields) {
      ColonFreeIsUnique(e.fields, e'.fields);
    }
  }

  /** So the hashed string determines the payload as a value, not only as a text. */
  lemma PayloadValueUnique(c: Codec, e: Entry, e': Entry, members: seq<Member>, members': seq<Member>)
    requires IsCodec(c) && IsJson(Object(members)) && IsJson(Object(members'))
    requires e.payload == Dump(Object(members)) && e'.payload == Dump(Object(members'))
    requires e'.previousHash == e.previousHash && RawString(c, e') == RawString(c, e)
    ensures members' == members
  {
    DumpIsObjectText(members);
    DumpIsObjectText(members');
    HashedColumnsUnique(c, e, e');
    DumpInjective(Object(members), Object(members'));
  }

  lemma SilentRewriteVerifies(c: Codec, rows: seq<Entry>, k: nat, e: Entry)
    requires IsCodec(c) && Chain(c, rows) && Sorted(rows) && k < |rows| && ObjectText(rows[k].payload)
    requires Rewrites(c, rows[k], e)
    ensures Chain(c, ReRead(rows, k, e))
  {
    assert BlockOk(c, rows, k);
    HashedColumnsUnique(c, rows[k], e);
    assert k + 1 < |rows| ==> Before(rows[k], rows[k + 1]);
    var p := ReReadSplit(rows, k, e);
    InPlaceVerifiesIff(c, rows, k, e);
  }

  /** The silent rewrites of a verified row, each of which leaves the ledger verified when it is read again,
      touch only the unhashed columns exactly when its text fields have no other reading. */
  lemma SilentRewriteIff(c: Codec, rows: seq<Entry>, k: nat)
    requires IsCodec(c) && Chain(c, rows) && Sorted(rows) && k < |rows|
    requires Fits(rows[k].fields) && ObjectText(rows[k].payload)
    ensures (forall e :: Rewrites(c, rows[k], e) ==> SameHashed(rows[k], e)) <==> !OtherReading(rows[k].fields)
    ensures forall e :: Rewrites(c, rows[k], e) ==> Chain(c, ReRead(rows, k, e))
    ensures forall u :: Rewrites(c, rows[k], rows[k].(unhashed := u))
  {
    var f := rows[k].fields;
    OtherReadingIff(f);
    forall e | Rewrites(c, rows[k], e)
      ensures Chain(c, ReRead(rows, k, e))
      ensures e.timestamp == rows[k].timestamp && e.payload == rows[k].payload && Joined(e.fields) == Joined(f)
    {
      SilentRewriteVerifies(c, rows, k, e);
      HashedColumnsUnique(c, rows[k], e);
    }
    if g :| g != f && Fits(g) && Joined(g) == Joined(f) {
      assert Rewrites(c, rows[k], rows[k].(fields := g));
      assert !SameHashed(rows[k], rows[k].(fields := g));
    }
  }

  /** Any overwriting of a colon-free row below the tip that the next reading accepts keeps every hashed
      column, or exhibits a SHA-256 collision. */
  lemma AcceptedRewriteIsHarmless(c: Codec, rows: seq<Entry>, k: nat, e: Entry)
    requires IsCodec(c) && Chain(c, rows) && Sorted(rows) && k + 1 < |rows|
    requires HashesDistinct(rows) && HashesDistinct(rows[k := e]) && Chain(c, ReRead(rows, k, e))
    requires ColonFree(rows[k].fields) && ObjectText(rows[k].payload) && ObjectText(e.payload)
    ensures SameHashed(rows[k], e)
            || (&& RawString(c, e) != RawString(c, rows[k])
                && c.sha256(RawString(c, e)) == c.sha256(RawString(c, rows[k])))
  {
    RewriteVerifiesIff(c, rows, k, e);
    assert BlockOk(c, rows, k);
    if RawString(c, e) == RawString(c, rows[k]) {
      HashedColumnsUnique(c, rows[k], e);
    }
  }

  // ---------------------------------------------------------------------
  // Appending and verifying
  // ---------------------------------------------------------------------

  datatype Actor = Actor(id: nat, email: string, role: string)

  /** A call of the recorder, with the clock and the fresh id it will draw. No payload is the empty one. */
  datatype Event = Event(
    timestamp: int, id: nat, actor: Option<Actor>, action: string, resourceType: string, resourceId: string,
    payload: Option<string>, ipAddress: Option<string>)

  function FieldsOf(v: Event): Fields {
    Fields(if v.actor.Some? then v.actor.value.email else "system", v.action, v.resourceType, v.resourceId)
  }

  function PayloadOf(v: Event): string {
    if v.payload.Some? then v.payload.value else "{}"
  }

  function UnhashedOf(v: Event, isGenesis: bool): Unhashed {
    match v.actor
    case Some(actor) => Unhashed(Some(actor.id), actor.role, v.ipAddress, isGenesis)
    case None => Unhashed(None, "system", v.ipAddress, isGenesis)
  }

  function NewEntry(c: Codec, rows: seq<Entry>, v: Event): Entry {
    var draft := Entry(v.timestamp, v.id, FieldsOf(v), PayloadOf(v), UnhashedOf(v, rows == []),
                       ExpectedPrevious(rows, |rows|), "");
    draft.(hash := CalculateHash(c, draft))
  }

  predicate HasHash(rows: seq<Entry>, h: string) {
    exists i :: 0 <= i < |rows| && rows[i].hash == h
  }

  lemma AppendLastVerifies(c: Codec, rows: seq<Entry>, v: Event)
    requires Chain(c, rows)
    ensures Chain(c, rows + [NewEntry(c, rows, v)])
  {
    var e := NewEntry(c, rows, v);
    assert RawString(c, e) == RawString(c, e.(hash := ""));
    forall i | 0 <= i < |rows + [e]| ensures BlockOk(c, rows + [e], i) {
      if i < |rows| {
        assert BlockOk(c, rows, i);
      }
    }
  }

  /** A row that points at the tip but sorts before it has the wrong predecessor. */
  lemma InsertEarlierBreaks(c: Codec, rows: seq<Entry>, e: Entry, p: nat)
    requires HashesDistinct(rows) && p < |rows| && e.previousHash == rows[|rows| - 1].hash
    ensures !Chain(c, rows[..p] + [e] + rows[p..])
  {
    var rows' := rows[..p] + [e] + rows[p..];
    assert rows'[p] == e && (p > 0 ==> rows'[p - 1] == rows[p - 1]);
    assert !BlockOk(c, rows', p);
  }

  /** Appending an event to a verified ledger leaves it verified exactly when the event sorts last:
      a clock that stands still against the random id, or steps back, breaks the chain. */
  lemma AppendVerifiesIff(c: Codec, rows: seq<Entry>, v: Event)
    requires Chain(c, rows) && HashesDistinct(rows)
    ensures var e := NewEntry(c, rows, v);
            Chain(c, Inserted(rows, e)) <==> rows == [] || Before(rows[|rows| - 1], e)
  {
    var e := NewEntry(c, rows, v);
    var p := InsertedSplit(rows, e);
    if p == |rows| {
      AppendLastVerifies(c, rows, v);
    } else {
      InsertEarlierBreaks(c, rows, e, p);
    }
  }

  /** Recording events one after the other into an empty ledger. */
  function Recorded(c: Codec, events: seq<Event>): seq<Entry> {
    if events == [] then []
    else
      var rows, v := Recorded(c, events[..|events| - 1]), events[|events| - 1];
      Inserted(rows, NewEntry(c, rows, v))
  }

  /** Column by column, the row holds the event. */
  ghost predicate Records(e: Entry, v: Event, first: bool) {
    && e.timestamp == v.timestamp && e.id == v.id
    && e.fields.action == v.action && e.fields.resourceType == v.resourceType && e.fields.resourceId == v.resourceId
    && e.payload == (if v.payload.Some? then v.payload.value else "{}")
    && e.unhashed.ipAddress == v.ipAddress && e.unhashed.isGenesis == first
    && match v.actor
       case Some(actor) =>
         e.fields.actorEmail == actor.email && e.unhashed.actorRole == actor.role && e.unhashed.actor == Some(actor.id)
       case None =>
         e.fields.actorEmail == "system" && e.unhashed.actorRole == "system" && e.unhashed.actor == None
  }

  /** Any events with strictly increasing timestamps are recorded in order as a chain that verifies. */
  lemma {:induction false} IncreasingEventsVerify(c: Codec, events: seq<Event>)
    requires forall i, j :: 0 <= i < j < |events| ==> events[i].timestamp < events[j].timestamp
    ensures var rows := Recorded(c, events);
            && Chain(c, rows) && |rows| == |events|
            && forall i :: 0 <= i < |events| ==> Records(rows[i], events[i], i == 0)
  {
    if events != [] {
      var front, v := events[..|events| - 1], events[|events| - 1];
      IncreasingEventsVerify(c, front);
      var rows := Recorded(c, front);
      var e := NewEntry(c, rows, v);
      assert rows != [] ==> Before(rows[|rows| - 1], e) by {
        assert rows != [] ==> Records(rows[|rows| - 1], events[|events| - 2], |events| == 2);
      }
      assert Recorded(c, events) == rows + [e];
      AppendLastVerifies(c, rows, v);
      NewEntryRecords(c, rows, v);
    }
  }

  lemma NewEntryRecords(c: Codec, rows: seq<Entry>, v: Event)
    ensures Records(NewEntry(c, rows, v), v, rows == [])
  {
  }

  datatype Verdict = Valid(blocks: nat) | PointerBroken(at: nat) | HashBroken(at: nat)

  /** The audit table, read in (timestamp, id) order. */
  class AuditLedger {
    const codec: Codec
    var rows: seq<Entry>

    constructor (codec: Codec)
      ensures this.codec == codec && rows == []
    {
      this.codec, rows := codec, [];
    }

    /** A row whose hash is already present violates the unique index, and one with a value too long for
        its column the widths; neither is saved. */
    method RecordAuditEvent(v: Event) returns (saved: Option<Entry>)
      modifies this
      ensures var e := NewEntry(codec, old(rows), v);
              && (saved.None? <==> HasHash(old(rows), e.hash) || !Fits(e.fields) || |e.unhashed.actorRole| > 50)
              && (saved.None? ==> rows == old(rows))
              && (saved.Some? ==> saved.value == e && rows == Inserted(old(rows), e))
    {
      var payload := if v.payload.None? then "{}" else v.payload.value;
      var email, role, actor := "system", "system", None;
      if v.actor.Some? {
        email, role, actor := v.actor.value.email, v.actor.value.role, Some(v.actor.value.id);
      }
      var previous, genesis := GENESIS_HASH, rows == [];
      if !genesis {
        previous := rows[|rows| - 1].hash;
      }
      var fields := Fields(email, v.action, v.resourceType, v.resourceId);
      var entry := Entry(v.timestamp, v.id, fields, payload, Unhashed(actor, role, v.ipAddress, genesis), previous, "");
      entry := entry.(hash := CalculateHash(codec, entry));
      if HasHash(rows, entry.hash) || !Fits(fields) || |role| > 50 { return None; }
      rows := Inserted(rows, entry);
      saved := Some(entry);
    }

    /** The verdict names the first broken block, and which of its two checks failed. */
    method VerifyAuditChain() returns (v: Verdict)
      ensures v.Valid? <==> Chain(codec, rows)
      ensures v.Valid? ==> v.blocks == |rows|
      ensures !v.Valid? ==>
                && v.at < |rows| && !BlockOk(codec, rows, v.at)
                && (forall i :: 0 <= i < v.at ==> BlockOk(codec, rows, i))
                && (v.PointerBroken? <==> rows[v.at].previousHash != ExpectedPrevious(rows, v.at))
    {
      var expected := GENESIS_HASH;
      for i := 0 to |rows|
        invariant expected == ExpectedPrevious(rows, i)
        invariant forall k :: 0 <= k < i ==> BlockOk(codec, rows, k)
      {
        if rows[i].previousHash != expected {
          assert !BlockOk(codec, rows, i);
          return PointerBroken(i);
        }
        if rows[i].hash != CalculateHash(codec, rows[i]) {
          assert !BlockOk(codec, rows, i);
          return HashBroken(i);
        }
        expected := rows[i].hash;
      }
      v := Valid(|rows|);
    }
  }
}
