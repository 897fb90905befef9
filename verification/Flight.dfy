/**
  What a list of frames in flight carries for each stream: payload bytes, window credit,
  handshake flags, and the streams it opens.
 */
module Flight {
  import opened Bytes
  import opened Wire

  /** Payload bytes for stream `id`, in order. */
  function DataOf(fs: seq<Frame>, id: u32): seq<byte> {
    if fs == [] then []
    else (if fs[0].typ == TYPE_DATA && fs[0].id == id then fs[0].payload else []) + DataOf(fs[1..], id)
  }

  /** Window credit for stream `id`. */
  function CreditOf(fs: seq<Frame>, id: u32): nat {
    if fs == [] then 0
    else (if fs[0].typ == TYPE_WINDOW_UPDATE && fs[0].id == id then fs[0].len else 0) + CreditOf(fs[1..], id)
  }

  /** Number of acknowledgements of stream `id`. */
  function AcksOf(fs: seq<Frame>, id: u32): nat {
    if fs == [] then 0
    else (if HasAck(fs[0].flags) && fs[0].id == id then 1 else 0) + AcksOf(fs[1..], id)
  }

  /** The stream ids opened, in order. */
  function Syns(fs: seq<Frame>): seq<u32> {
    if fs == [] then []
    else (if HasSyn(fs[0].flags) then [fs[0].id] else []) + Syns(fs[1..])
  }

  /**
    To a receiver that knows the streams `known`, every frame names a stream it will know by
    the time the frame arrives, and every SYN introduces a stream it will not know yet.
   */
  ghost predicate Admissible(fs: seq<Frame>, known: set<u32>) {
    fs == [] ||
    (if HasSyn(fs[0].flags) then fs[0].id !in known && Admissible(fs[1..], known + {fs[0].id})
     else fs[0].id in known && Admissible(fs[1..], known))
  }

  lemma Assoc3<T>(a: seq<T>, b: seq<T>, c: seq<T>)
    ensures a + (b + c) == (a + b) + c
  {
  }

  lemma {:induction false} Snoc(fs: seq<Frame>, f: Frame, id: u32)
    ensures DataOf(fs + [f], id) == DataOf(fs, id) + if f.typ == TYPE_DATA && f.id == id then f.payload else []
    ensures CreditOf(fs + [f], id) == CreditOf(fs, id) + if f.typ == TYPE_WINDOW_UPDATE && f.id == id then f.len else 0
    ensures AcksOf(fs + [f], id) == AcksOf(fs, id) + if HasAck(f.flags) && f.id == id then 1 else 0
  {
    if fs == [] {
      assert fs + [f] == [f] && [f][1..] == [];
    } else {
      assert (fs + [f])[1..] == fs[1..] + [f];
      Snoc(fs[1..], f, id);
      var b, c := DataOf(fs[1..], id), if f.typ == TYPE_DATA && f.id == id then f.payload else [];
      Assoc3(if fs[0].typ == TYPE_DATA && fs[0].id == id then fs[0].payload else [], b, c);
    }
  }

  lemma {:induction false} SynsSnoc(fs: seq<Frame>, f: Frame)
    ensures Syns(fs + [f]) == Syns(fs) + if HasSyn(f.flags) then [f.id] else []
  {
    if fs == [] {
      assert fs + [f] == [f] && [f][1..] == [];
    } else {
      assert (fs + [f])[1..] == fs[1..] + [f];
      SynsSnoc(fs[1..], f);
      var a, b := if HasSyn(fs[0].flags) then [fs[0].id] else [], Syns(fs[1..]);
      var c := if HasSyn(f.flags) then [f.id] else [];
      Assoc3(a, b, c);
      assert Syns(fs + [f]) == a + Syns(fs[1..] + [f]);
    }
  }

  lemma {:induction false} AdmissibleSnoc(fs: seq<Frame>, f: Frame, known: set<u32>)
    requires Admissible(fs, known)
    requires HasSyn(f.flags) <==> f.id !in known && f.id !in Syns(fs)
    ensures Admissible(fs + [f], known)
  {
    if fs == [] {
      assert fs + [f] == [f] && [f][1..] == [];
    } else {
      assert (fs + [f])[1..] == fs[1..] + [f];
      if HasSyn(fs[0].flags) {
        AdmissibleSnoc(fs[1..], f, known + {fs[0].id});
      } else {
        AdmissibleSnoc(fs[1..], f, known);
      }
    }
  }

  /** The receiver may come to know more streams, as long as none of them is about to be introduced. */
  lemma {:induction false} AdmissibleGrow(fs: seq<Frame>, known: set<u32>, id: u32)
    requires Admissible(fs, known) && id !in Syns(fs)
    ensures Admissible(fs, known + {id})
  {
    if fs != [] {
      if HasSyn(fs[0].flags) {
        AdmissibleGrow(fs[1..], known + {fs[0].id}, id);
        assert known + {fs[0].id} + {id} == known + {id} + {fs[0].id};
      } else {
        AdmissibleGrow(fs[1..], known, id);
      }
    }
  }
}
