/** The room page (`app/components/roomDetail/roomDetail.tsx`): a hero
    gallery and a full-screen preview, each with its own image index,
    driven by buttons, thumbnails and the keyboard. */
module RoomDetail {
  import opened Seqs
  import opened Data
  import opened Cyclic

  /** The keys the keyboard handler tells apart. */
  datatype Key = Escape | ArrowLeft | ArrowRight | OtherKey

  class RoomDetailView {
    var selectedRoom: Option<Room>
    var error: Option<string>
    var selectedImageIndex: int
    var previewImageIndex: int
    var isPreviewOpen: bool

    constructor ()
      ensures selectedRoom == None && error == None
      ensures selectedImageIndex == 0 && previewImageIndex == 0 && !isPreviewOpen
    {
      selectedRoom := None;
      error := None;
      selectedImageIndex := 0;
      previewImageIndex := 0;
      isPreviewOpen := false;
    }

    /** Both indices point at an image of the room shown. */
    predicate IndicesInRange()
      reads this
    {
      selectedRoom.Some? ==>
        0 <= selectedImageIndex < |selectedRoom.value.images| &&
        0 <= previewImageIndex < |selectedRoom.value.images|
    }

    /** `loadRoom`: looks the room up; an unknown id sets the error and
        leaves the room as it was. */
    method LoadRoom(rooms: seq<Room>, roomId: int)
      modifies this
      ensures RoomById(rooms, roomId).Some? ==>
                selectedRoom == RoomById(rooms, roomId) && error == None
      ensures RoomById(rooms, roomId).None? ==>
                selectedRoom == old(selectedRoom) && error == Some("Habitación no encontrada")
      ensures selectedImageIndex == old(selectedImageIndex) && previewImageIndex == old(previewImageIndex)
      ensures isPreviewOpen == old(isPreviewOpen)
    {
      error := None;
      var room := RoomById(rooms, roomId);
      if room.None? {
        error := Some("Habitación no encontrada");
        return;
      }
      selectedRoom := room;
    }

    /** `nextImage`: the hero moves forward, wrapping from the last image to
        the first; nothing happens before a room is loaded. */
    method NextImage()
      modifies this
      ensures selectedRoom.None? ==> selectedImageIndex == old(selectedImageIndex)
      ensures selectedRoom.Some? ==>
                selectedImageIndex == WrapNext(old(selectedImageIndex), |selectedRoom.value.images|)
      ensures selectedRoom == old(selectedRoom) && error == old(error)
      ensures previewImageIndex == old(previewImageIndex) && isPreviewOpen == old(isPreviewOpen)
      ensures old(IndicesInRange()) ==> IndicesInRange()
    {
      if selectedRoom.Some? {
        var n := |selectedRoom.value.images|;
        selectedImageIndex := if selectedImageIndex == n - 1 then 0 else selectedImageIndex + 1;
      }
    }

    /** `prevImage`: the hero moves back, wrapping from the first image to
        the last. */
    method PrevImage()
      modifies this
      ensures selectedRoom.None? ==> selectedImageIndex == old(selectedImageIndex)
      ensures selectedRoom.Some? ==>
                selectedImageIndex == WrapPrev(old(selectedImageIndex), |selectedRoom.value.images|)
      ensures selectedRoom == old(selectedRoom) && error == old(error)
      ensures previewImageIndex == old(previewImageIndex) && isPreviewOpen == old(isPreviewOpen)
      ensures old(IndicesInRange()) ==> IndicesInRange()
    {
      if selectedRoom.Some? {
        var n := |selectedRoom.value.images|;
        selectedImageIndex := if selectedImageIndex == 0 then n - 1 else selectedImageIndex - 1;
      }
    }

    /** `nextPreviewImage`. */
    method NextPreviewImage()
      modifies this
      ensures selectedRoom.None? ==> previewImageIndex == old(previewImageIndex)
      ensures selectedRoom.Some? ==>
                previewImageIndex == WrapNext(old(previewImageIndex), |selectedRoom.value.images|)
      ensures selectedRoom == old(selectedRoom) && error == old(error)
      ensures selectedImageIndex == old(selectedImageIndex) && isPreviewOpen == old(isPreviewOpen)
      ensures old(IndicesInRange()) ==> IndicesInRange()
    {
      if selectedRoom.Some? {
        var n := |selectedRoom.value.images|;
        previewImageIndex := if previewImageIndex == n - 1 then 0 else previewImageIndex + 1;
      }
    }

    /** `prevPreviewImage`. */
    method PrevPreviewImage()
      modifies this
      ensures selectedRoom.None? ==> previewImageIndex == old(previewImageIndex)
      ensures selectedRoom.Some? ==>
                previewImageIndex == WrapPrev(old(previewImageIndex), |selectedRoom.value.images|)
      ensures selectedRoom == old(selectedRoom) && error == old(error)
      ensures selectedImageIndex == old(selectedImageIndex) && isPreviewOpen == old(isPreviewOpen)
      ensures old(IndicesInRange()) ==> IndicesInRange()
    {
      if selectedRoom.Some? {
        var n := |selectedRoom.value.images|;
        previewImageIndex := if previewImageIndex == 0 then n - 1 else previewImageIndex - 1;
      }
    }

    /** `openPreview`: the preview opens on the image clicked. */
    method OpenPreview(index: int)
      modifies this
      ensures previewImageIndex == index && isPreviewOpen
      ensures selectedRoom == old(selectedRoom) && error == old(error)
      ensures selectedImageIndex == old(selectedImageIndex)
    {
      previewImageIndex := index;
      isPreviewOpen := true;
    }

    /** `closePreview`: the preview closes and keeps its index. */
    method ClosePreview()
      modifies this
      ensures !isPreviewOpen
      ensures selectedRoom == old(selectedRoom) && error == old(error)
      ensures selectedImageIndex == old(selectedImageIndex) && previewImageIndex == old(previewImageIndex)
    {
      isPreviewOpen := false;
    }

    /** A thumbnail of the hero strip was clicked. */
    method SelectImage(index: int)
      modifies this
      ensures selectedImageIndex == index
      ensures selectedRoom == old(selectedRoom) && error == old(error)
      ensures previewImageIndex == old(previewImageIndex) && isPreviewOpen == old(isPreviewOpen)
    {
      selectedImageIndex := index;
    }

    /** A thumbnail of the preview strip was clicked. */
    method SelectPreviewImage(index: int)
      modifies this
      ensures previewImageIndex == index
      ensures selectedRoom == old(selectedRoom) && error == old(error)
      ensures selectedImageIndex == old(selectedImageIndex) && isPreviewOpen == old(isPreviewOpen)
    {
      previewImageIndex := index;
    }

    /** `handleKeyDown`: while the preview is open, Escape closes it and the
        arrows move the preview; otherwise the arrows move the hero. Only
        one index moves per key, and other keys change nothing. */
    method HandleKeyDown(key: Key)
      modifies this
      ensures selectedRoom == old(selectedRoom) && error == old(error)
      ensures old(isPreviewOpen) ==> selectedImageIndex == old(selectedImageIndex)
      ensures !old(isPreviewOpen) ==> previewImageIndex == old(previewImageIndex) && !isPreviewOpen
      ensures isPreviewOpen <==> old(isPreviewOpen) && key != Escape
      ensures old(isPreviewOpen) && key == ArrowRight && selectedRoom.Some? ==>
                previewImageIndex == WrapNext(old(previewImageIndex), |selectedRoom.value.images|)
      ensures old(isPreviewOpen) && key == ArrowLeft && selectedRoom.Some? ==>
                previewImageIndex == WrapPrev(old(previewImageIndex), |selectedRoom.value.images|)
      ensures !old(isPreviewOpen) && key == ArrowRight && selectedRoom.Some? ==>
                selectedImageIndex == WrapNext(old(selectedImageIndex), |selectedRoom.value.images|)
      ensures !old(isPreviewOpen) && key == ArrowLeft && selectedRoom.Some? ==>
                selectedImageIndex == WrapPrev(old(selectedImageIndex), |selectedRoom.value.images|)
      ensures key == OtherKey || key == Escape || selectedRoom.None? ==>
                selectedImageIndex == old(selectedImageIndex) && previewImageIndex == old(previewImageIndex)
      ensures old(IndicesInRange()) ==> IndicesInRange()
    {
      if isPreviewOpen {
        if key == Escape {
          ClosePreview();
        } else if key == ArrowLeft {
          PrevPreviewImage();
        } else if key == ArrowRight {
          NextPreviewImage();
        }
      } else {
        if key == ArrowLeft {
          PrevImage();
        } else if key == ArrowRight {
          NextImage();
        }
      }
    }
  }
}
