/** The layer stack: an ordered deque of layers, updated front to back and
    offered events back to front until one handles it. Layers are ids; what
    a layer does with an update is outside the model, and whether it handles
    an event is given by an oracle. */
module Layers {

  type LayerId = nat

  datatype EventType = None | KeyPressed | KeyReleased

  datatype Event = Event(kind: EventType)

  class LayerStack {
    var layers: seq<LayerId>

    constructor ()
      ensures layers == []
    {
      layers := [];
    }

    /** The new layer becomes the front; the others keep their order behind it. */
    method PushFront(layer: LayerId)
      modifies this
      ensures layers == [layer] + old(layers)
      ensures layers[0] == layer && layers[1..] == old(layers)
    {
      layers := [layer] + layers;
    }

    /** The new layer becomes the back; the others stay where they were. */
    method PushBack(layer: LayerId)
      modifies this
      ensures layers == old(layers) + [layer]
      ensures layers[..|old(layers)|] == old(layers) && layers[|layers| - 1] == layer
    {
      layers := layers + [layer];
    }

    /** Updates every layer once, front to back; returns the order of the calls. */
    method OnUpdate() returns (updated: seq<LayerId>)
      ensures |updated| == |layers|
      ensures forall k :: 0 <= k < |layers| ==> updated[k] == layers[k]
    {
      updated := [];
      var i := 0;
      while i < |layers|
        invariant 0 <= i <= |layers|
        invariant updated == layers[..i]
      {
        updated := updated + [layers[i]];
        i := i + 1;
      }
    }

    /** Offers the event to the layers from back to front and stops at the
        first that handles it. Returns the layers offered the event, in
        order, and whether one handled it; the stack is unchanged. */
    method OnEvent(event: Event, handles: (LayerId, Event) -> bool) returns (offered: seq<LayerId>, handled: bool)
      ensures |offered| <= |layers|
      ensures forall k :: 0 <= k < |offered| ==> offered[k] == layers[|layers| - 1 - k]
      ensures forall k :: 0 <= k < |offered| - 1 ==> !handles(offered[k], event)
      ensures handled <==> offered != [] && handles(offered[|offered| - 1], event)
      ensures !handled ==> |offered| == |layers|
      ensures handled <==> exists k :: 0 <= k < |layers| && handles(layers[k], event)
    {
      offered := [];
      var it := |layers|;
      while it != 0
        invariant 0 <= it <= |layers|
        invariant |offered| == |layers| - it
        invariant forall k :: 0 <= k < |offered| ==> offered[k] == layers[|layers| - 1 - k]
        invariant forall k :: it <= k < |layers| ==> !handles(layers[k], event)
      {
        it := it - 1;
        offered := offered + [layers[it]];
        if handles(layers[it], event) {
          return offered, true;
        }
      }
      return offered, false;
    }

    /** Deletes each held layer exactly once, front to back, after which the
        stack holds none. */
    method Destroy() returns (deleted: seq<LayerId>)
      modifies this
      ensures deleted == old(layers)
      ensures layers == []
    {
      deleted := [];
      while layers != []
        invariant deleted + layers == old(layers)
        decreases |layers|
      {
        deleted := deleted + [layers[0]];
        layers := layers[1..];
      }
    }
  }
}
