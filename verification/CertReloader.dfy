/**
 Hot reloading of a certificate and key pair: two independent file reads, a comparison with the stored
 raw bytes, parsing, and one locked update of all three fields. Parsing is opaque.
 */
module CertReloader {
  import opened Wrappers

  type Raw = seq<int>

  type Certificate = nat

  type Parse = (Raw, Raw) -> Option<Certificate>

  /** Nil byte slices are empty; the certificate is None until the first successful parse. */
  datatype Store = Store(cert: Option<Certificate>, certRaw: Raw, keyRaw: Raw)

  const EMPTY := Store(None, [], [])

  /** What the two reads of one reload return. The files may change in between, so the pair may be torn. */
  datatype Reads = Reads(cert: Option<Raw>, key: Option<Raw>)

  /** The new store and whether reload succeeded. */
  function Reloaded(parse: Parse, s: Store, files: Reads): (Store, bool) {
    if files.cert.None? || files.key.None? then (s, false)
    else if files.key.value == s.keyRaw && files.cert.value == s.certRaw then (s, true)
    else
      var cert := parse(files.cert.value, files.key.value);
      if cert.None? then (s, false) else (Store(cert, files.cert.value, files.key.value), true)
  }

  /** The same without the comparison: always parse what was read. */
  function Reparsed(parse: Parse, s: Store, files: Reads): (Store, bool) {
    if files.cert.None? || files.key.None? then (s, false)
    else
      var cert := parse(files.cert.value, files.key.value);
      if cert.None? then (s, false) else (Store(cert, files.cert.value, files.key.value), true)
  }

  predicate Agrees(parse: Parse, s: Store) {
    if s.cert.Some? then parse(s.certRaw, s.keyRaw) == s.cert else s == EMPTY
  }

  function After(parse: Parse, s: Store, history: seq<Reads>): Store {
    if history == [] then s else Reloaded(parse, After(parse, s, history[..|history| - 1]), history[|history| - 1]).0
  }

  function AfterReparsing(parse: Parse, s: Store, history: seq<Reads>): Store {
    if history == [] then s
    else Reparsed(parse, AfterReparsing(parse, s, history[..|history| - 1]), history[|history| - 1]).0
  }

  /** Over any sequence of reads a served certificate is the parse of the stored pair. */
  lemma {:induction false} ServedMatchesStored(parse: Parse, history: seq<Reads>)
    ensures Agrees(parse, After(parse, EMPTY, history))
  {
    if history != [] {
      ServedMatchesStored(parse, history[..|history| - 1]);
    }
  }

  /** A failed reload changes nothing, and a certificate once served is never withdrawn. */
  lemma FailureChangesNothing(parse: Parse, s: Store, files: Reads)
    ensures !Reloaded(parse, s, files).1 ==> Reloaded(parse, s, files).0 == s
    ensures s.cert.Some? ==> Reloaded(parse, s, files).0.cert.Some?
  {
  }

  predicate BothEmpty(files: Reads) {
    files.cert == Some([]) && files.key == Some([])
  }

  /** Skipping on equal bytes agrees with always reparsing, in state and in success, if and only if it is
      not the case that nothing is loaded yet and both files are empty (where the parse is what differs). */
  lemma SkippingIsReparsingIff(parse: Parse, s: Store, files: Reads)
    requires Agrees(parse, s)
    ensures Reloaded(parse, s, files) == Reparsed(parse, s, files)
            <==> !(s.cert.None? && BothEmpty(files))
  {
    if s.cert.None? && BothEmpty(files) {
      assert Reloaded(parse, s, files) == (s, true);
      assert Reparsed(parse, s, files) != (s, true);
    }
  }

  /** Over any history without a pair of empty files the two strategies serve the same certificates. */
  lemma {:induction false} HistoriesAgree(parse: Parse, history: seq<Reads>)
    requires forall i :: 0 <= i < |history| ==> !BothEmpty(history[i])
    ensures After(parse, EMPTY, history) == AfterReparsing(parse, EMPTY, history)
  {
    if history != [] {
      var init := history[..|history| - 1];
      HistoriesAgree(parse, init);
      ServedMatchesStored(parse, init);
      SkippingIsReparsingIff(parse, After(parse, EMPTY, init), history[|history| - 1]);
    }
  }

  /** Creation succeeds with no certificate to serve exactly when both files are empty. */
  lemma CreatedWithoutCertificateIff(parse: Parse, files: Reads)
    ensures var (s, ok) := Reloaded(parse, EMPTY, files);
            ok && s.cert.None? <==> BothEmpty(files)
  {
  }

  /** Both files were read and the pair parses. */
  predicate Loadable(parse: Parse, files: Reads) {
    files.cert.Some? && files.key.Some? && parse(files.cert.value, files.key.value).Some?
  }

  /** The certificate of the last loadable reads, if there were any. */
  predicate IsLastLoaded(parse: Parse, history: seq<Reads>, cert: Option<Certificate>) {
    if forall i :: 0 <= i < |history| ==> !Loadable(parse, history[i]) then cert == None
    else exists i :: && 0 <= i < |history| && Loadable(parse, history[i])
                     && cert == parse(history[i].cert.value, history[i].key.value)
                     && forall j :: i < j < |history| ==> !Loadable(parse, history[j])
  }

  /** Whatever was read in between, the certificate is that of the last reads that could be loaded, given that
      an empty pair cannot be. */
  lemma {:induction false} LastLoadedIsKept(parse: Parse, history: seq<Reads>)
    requires parse([], []).None?
    ensures IsLastLoaded(parse, history, After(parse, EMPTY, history).cert)
  {
    if history != [] {
      var n := |history| - 1;
      LastLoadedIsKept(parse, history[..n]);
      ServedMatchesStored(parse, history[..n]);
      LastLoadedStep(parse, After(parse, EMPTY, history[..n]), history[n]);
      assert forall i :: 0 <= i < n ==> history[..n][i] == history[i];
    }
  }

  lemma LastLoadedStep(parse: Parse, s: Store, files: Reads)
    requires parse([], []).None? && Agrees(parse, s)
    ensures Reloaded(parse, s, files).0.cert
            == if Loadable(parse, files) then parse(files.cert.value, files.key.value) else s.cert
  {
  }

  class Reloader {
    const parse: Parse
    var cert: Option<Certificate>
    var certRaw: Raw
    var keyRaw: Raw
    ghost var history: seq<Reads>

    function Stored(): Store
      reads this
    {
      Store(cert, certRaw, keyRaw)
    }

    /** The fields are what the reads so far make of an empty store. */
    ghost predicate Valid()
      reads this
    {
      Stored() == After(parse, EMPTY, history)
    }

    constructor (parse: Parse, files: Reads)
      ensures Valid() && this.parse == parse && history == [files]
      ensures Stored() == Reloaded(parse, EMPTY, files).0 && Agrees(parse, Stored())
    {
      this.parse := parse;
      cert, certRaw, keyRaw := None, [], [];
      history := [];
      new;
      var ok := Reload(files);
    }

    method Reload(files: Reads) returns (ok: bool)
      requires Valid()
      modifies this
      ensures Valid() && history == old(history) + [files]
      ensures (Stored(), ok) == Reloaded(parse, old(Stored()), files)
      ensures Agrees(parse, Stored())
    {
      history := history + [files];
      assert history[..|history| - 1] == old(history);
      ServedMatchesStored(parse, history);
      if files.cert.None? {
        return false;
      }
      if files.key.None? {
        return false;
      }
      var equal := files.key.value == keyRaw && files.cert.value == certRaw;
      if equal {
        return true;
      }
      var parsed := parse(files.cert.value, files.key.value);
      if parsed.None? {
        return false;
      }
      cert := parsed;
      certRaw := files.cert.value;
      keyRaw := files.key.value;
      ok := true;
    }

    /** Serves the certificate of the last loadable reads. */
    method GetCertificate() returns (served: Option<Certificate>)
      requires Valid()
      ensures served.Some? ==> parse(certRaw, keyRaw) == served
      ensures parse([], []).None? ==> IsLastLoaded(parse, history, served)
    {
      ServedMatchesStored(parse, history);
      if parse([], []).None? {
        LastLoadedIsKept(parse, history);
      }
      served := cert;
    }
  }
}
