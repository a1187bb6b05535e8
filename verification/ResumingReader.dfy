/** The download reader that reopens a broken stream where it stopped. */
module ResumingReader {

  type Bytes = seq<char>

  datatype ReadErr = NoErr | EOF | UnexpectedEOF | Other

  /** One HTTP response body: it streams the file from the offset it was opened at, and may break
      anywhere, after which nothing more comes.  It reports the end of the file only there. */
  class Body {
    const file: Bytes
    /** The transport breaks streams off, but nothing else goes wrong. */
    const faultless: bool
    /** The offset it was opened at. */
    const start: nat
    var off: nat
    /** What the last Read reported. */
    var status: ReadErr
    var closed: bool

    ghost predicate Valid() reads this { off <= |file| }

    constructor (file: Bytes, faultless: bool, off: nat)
      requires off <= |file|
      ensures Valid() && this.file == file && this.faultless == faultless && start == this.off == off && status == NoErr && !closed
    {
      this.file, this.faultless, start, this.off, status, closed := file, faultless, off, off, NoErr, false;
    }

    /** Any read that the io.Reader contract allows. */
    method Read(size: nat) returns (data: Bytes, err: ReadErr)
      requires Valid() && !closed
      modifies this`off, this`status
      ensures Valid() && old(off) <= off && |data| <= size && data == file[old(off)..off]
      ensures (err == EOF ==> off == |file|) && (err == Other ==> !faultless)
      ensures status == err && (old(status) == UnexpectedEOF ==> data == [] && err == UnexpectedEOF)
    {
      if status == UnexpectedEOF {
        return [], UnexpectedEOF;
      }
      var n: int := *;
      var most := if size < |file| - off then size else |file| - off;
      var m: nat := if 0 <= n < most then n else most;
      data := file[off..off + m];
      off := off + m;
      var e: ReadErr := *;
      err := if (e == EOF && off < |file|) || (e == Other && faultless) then NoErr else e;
      status := err;
    }

    method Close()
      modifies this`closed
      ensures closed
    {
      closed := true;
    }
  }

  predicate IsResumable(err: ReadErr) { err == UnexpectedEOF }

  class Reader {
    const file: Bytes
    const faultless: bool
    var body: Body
    var pos: nat
    var err: ReadErr
    /** Everything that Read has returned so far, and every body opened so far. */
    ghost var delivered: Bytes
    ghost var bodies: set<Body>

    /** The error is what the current body reported last, or that it broke and could not be opened again. */
    ghost predicate Valid()
      reads this, bodies
    {
      Sound() && (err == body.status || (err == Other && body.status == UnexpectedEOF))
    }

    /** All other bodies broke, and have been closed. */
    ghost predicate Sound()
      reads this, bodies
    {
      body in bodies && body.Valid() && body.file == file && body.faultless == faultless &&
      pos <= |file| && delivered == file[..pos] && body.off == pos &&
      (forall b :: b in bodies ==> (b.closed <==> b != body) && (b != body ==> b.status == UnexpectedEOF)) &&
      (err == EOF ==> pos == |file|) && (err == Other ==> !faultless || 0 < pos == |file|)
    }

    /** newResumingReader, when the first open succeeds. */
    constructor (file: Bytes, faultless: bool)
      ensures Valid() && fresh(bodies) && this.file == file && this.faultless == faultless && pos == 0 && delivered == [] && err == NoErr
    {
      var b := new Body(file, faultless, 0);
      this.file, this.faultless, body, pos, err, delivered, bodies := file, faultless, b, 0, NoErr, [], {b};
    }

    /** Opens the file at pos and closes the broken body, unless opening fails; a range that begins at the end of the
        file cannot be satisfied, so there opening may fail although nothing is wrong. */
    method Reopen() returns (ok: bool)
      requires Sound() && body.status == UnexpectedEOF
      modifies this`body, this`bodies, body`closed
      ensures Sound() && old(bodies) <= bodies && fresh(bodies - old(bodies))
      ensures if ok then fresh(body) && body.status == NoErr && body.start == pos else body == old(body) && (!faultless || 0 < pos == |file|)
    {
      var openFails: bool := *;
      if openFails && (!faultless || 0 < pos == |file|) {
        return false;
      }
      var next := new Body(file, faultless, pos);
      body.Close();
      body := next;
      bodies := bodies + {next};
      return true;
    }

    /** Reads from the current body. */
    method ReadBody(size: nat) returns (data: Bytes, e: ReadErr)
      requires Valid() && err == NoErr
      modifies this`pos, this`delivered, body`off, body`status
      ensures Sound() && |data| <= size && delivered == old(delivered) + data && pos == old(pos) + |data| && body.status == e
      ensures (e == EOF ==> pos == |file|) && (e == Other ==> !faultless)
    {
      data, e := body.Read(size);
      assert file[..pos] + data == file[..pos + |data|];
      delivered := delivered + data;
      pos := pos + |data|;
    }

    /** Read.  Over any sequence of calls the bytes returned are exactly the first pos bytes of the
        file; the end is reported only at the end; an error, once returned, is returned by every later call;
        and one call makes at most two reads and two attempts to reopen.  A stream that breaks off is an error
        only if the reopened stream breaks off too, and without a byte, or if it broke off after the last byte.  All other
        errors are passed on.  After a break there is an error, or the reader goes on with a new body that was opened where the broken one had stopped. */
    method Read(size: nat) returns (data: Bytes, e: ReadErr, bodyReads: nat, opens: nat)
      requires Valid()
      modifies this, bodies
      ensures Valid() && fresh(bodies - old(bodies)) && old(bodies) <= bodies
      ensures |data| <= size && delivered == old(delivered) + data
      ensures e == EOF ==> pos == |file|
      ensures e == err
      ensures old(err) != NoErr ==> data == [] && e == old(err) && pos == old(pos) && bodyReads == 0
      ensures bodyReads <= 2 && opens <= 2 && (old(err) == NoErr ==> bodyReads > 0)
      ensures e == NoErr ==> if opens == 0 then body == old(body) else fresh(body) && old(pos) <= body.start <= pos
      ensures e == NoErr && body.start < pos && opens > 0 ==> body.start == old(pos)
      ensures e == NoErr && opens > 0 && data == [] ==> bodyReads == 2
      ensures old(err) == NoErr && e == UnexpectedEOF ==> data == [] && bodyReads == 2
      ensures e == Other ==> !faultless || 0 < pos == |file|
    {
      data, bodyReads, opens := [], 0, 0;
      if err != NoErr {
        e := err;
        return;
      }
      var reopened := false;
      while true
        invariant Valid() && err == NoErr && fresh(bodies - old(bodies)) && old(bodies) <= bodies
        invariant delivered == old(delivered) && pos == old(pos)
        invariant if reopened then fresh(body) && body.start == pos else body == old(body)
        invariant bodyReads == opens == (if reopened then 1 else 0)
        decreases if reopened then 0 else 1
      {
        data, e := ReadBody(size);
        bodyReads := bodyReads + 1;
        if e == NoErr {
          return;
        }
        if !IsResumable(e) {
          err := e;
          return;
        }
        if reopened && |data| == 0 {
          err := e;
          return;
        }
        opens := opens + 1;
        var ok := Reopen();
        if !ok {
          e := Other;
          err := e;
          return;
        }
        if |data| > 0 {
          e := NoErr;
          return;
        }
        reopened := true;
      }
    }

    /** Close: afterwards every body that was opened is closed. */
    method Close()
      requires Valid()
      modifies body
      ensures forall b :: b in bodies ==> b.closed
    {
      body.Close();
    }
  }

  /** newResumingReader: there is no reader if the first open fails. */
  method NewReader(file: Bytes, faultless: bool) returns (r: Reader?)
    ensures r == null ==> !faultless
    ensures r != null ==> r.Valid() && fresh(r) && fresh(r.bodies) && r.file == file && r.faultless == faultless && r.delivered == [] && r.err == NoErr
  {
    var openFails: bool := *;
    if openFails && !faultless {
      return null;
    }
    r := new Reader(file, faultless);
  }

  /** Reading a new reader until an error, in pieces of the given sizes: whatever broke on the way, a
      copy that ends with EOF is the file, and any other copy is a prefix of it; the error of a reader that cannot be
      reopened comes, if nothing but breaks goes wrong, only after the last byte. */
  method Copy(file: Bytes, faultless: bool, sizes: seq<nat>) returns (data: Bytes, e: ReadErr, pieces: nat)
    ensures e == NoErr ==> pieces == |sizes|
    ensures data <= file && (e == Other ==> !faultless || data == file)
    ensures e == EOF ==> data == file
  {
    var r := NewReader(file, faultless);
    if r == null {
      return [], Other, 0;
    }
    data, e, pieces := [], NoErr, 0;
    for i := 0 to |sizes|
      invariant r.Valid() && fresh(r) && fresh(r.bodies) && r.file == file && r.faultless == faultless && r.delivered == data
      invariant e == r.err == NoErr && pieces == i
    {
      var piece, readErr, _, _ := r.Read(sizes[i]);
      e := readErr;
      data := data + piece;
      pieces := pieces + 1;
      if e != NoErr {
        return;
      }
    }
  }
}
