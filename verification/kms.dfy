/**
 * The backend's records: the per-device `SDL_VideoData`, the per-window
 * `SDL_WindowData` with its two dumb buffers and its GBM swap-chain fields, the
 * video device's EGL data and the read-only display and window values.
 */
module Kms {
  import opened Platform

  /** One dumb buffer: its three kernel request records (`drm_mode_create_dumb`,
      `drm_mode_map_dumb`, `drm_mode_destroy_dumb`), its framebuffer id and its mapping. */
  datatype DumbBuffer = DumbBuffer(
    width: u32, height: u32, bpp: u32, handle: u32, pitch: u32, size: nat,
    mapHandle: u32, offset: nat,
    destroyHandle: u32,
    bufId: int,
    mapping: MapPtr)

  /** A dumb buffer record as a zero-filled window record holds it. */
  const ZeroBuffer := DumbBuffer(0, 0, 0, 0, 0, 0, 0, 0, 0, 0, Null)

  /** The display a window is on: the mode the dumb buffers are sized to, the mode
      programmed on the CRTC and the CRTC and connector ids. */
  datatype DisplayData = DisplayData(fullscreenMode: Mode, mode: Mode, crtcId: nat, connectorId: nat)

  /** The mode-set that scans framebuffer `fbId` out from offset (0, 0) on the
      display's CRTC and its one connector in the display's mode, with the reply
      it got. */
  function SetCrtcCall(fd: int, disp: DisplayData, fbId: int, ret: int): Call {
    SetCrtc(fd, disp.crtcId, fbId, 0, 0, disp.connectorId, disp.mode, ret)
  }

  /** The size of an SDL window. */
  datatype SdlWindow = SdlWindow(w: nat, h: nat)

  /** The per-device record. */
  class VideoData {
    var drmFd: int
    var dumbInit: bool
    var gbmInit: bool
    var gbmDev: Option<nat>
    var openglMode: bool
    var asyncPageflipSupport: bool
  }

  /** The GBM swap-chain fields of a window, as a value. */
  datatype GbmWindow = GbmWindow(
    eglSurface: Option<nat>, gs: Option<nat>, bo: Option<nat>, nextBo: Option<nat>, waitingForFlip: bool)

  /** The per-window record. */
  class WindowData {
    const dumbBuffers: array<DumbBuffer>
    var backBuffer: int
    var frontBuffer: int
    var framebuffer: Option<Surface>
    var eglSurface: Option<nat>
    var gs: Option<nat>
    var bo: Option<nat>
    var nextBo: Option<nat>
    var waitingForFlip: bool
    var doubleBuffer: bool
    var eglSurfaceDirty: bool

    /** A zero-filled window record with its two dumb buffer slots. */
    constructor ()
      ensures dumbBuffers.Length == 2 && fresh(dumbBuffers)
      ensures dumbBuffers[..] == [ZeroBuffer, ZeroBuffer]
      ensures backBuffer == 0 && frontBuffer == 0 && framebuffer == None
      ensures Gbm() == GbmWindow(None, None, None, None, false)
    {
      dumbBuffers := new DumbBuffer[2](_ => ZeroBuffer);
      backBuffer, frontBuffer := 0, 0;
      framebuffer := None;
      eglSurface, gs, bo, nextBo := None, None, None, None;
      waitingForFlip, doubleBuffer, eglSurfaceDirty := false, false, false;
    }

    /** The back and front indices name the two different slots. */
    ghost predicate RolesValid()
      reads this
    {
      (backBuffer == 0 && frontBuffer == 1) || (backBuffer == 1 && frontBuffer == 0)
    }

    /** The memory the back buffer's `map` points to, if it is a mapping. */
    function BackMemory(): set<array<bv8>>
      reads this, dumbBuffers
    {
      if 0 <= backBuffer < dumbBuffers.Length && dumbBuffers[backBuffer].mapping.Mapped?
      then {dumbBuffers[backBuffer].mapping.mem} else {}
    }

    function Gbm(): GbmWindow
      reads this
    {
      GbmWindow(eglSurface, gs, bo, nextBo, waitingForFlip)
    }
  }

  /** The EGL state of the video device once the library is loaded. */
  class EglData {
    const eglDisplay: nat
    var swapInterval: int

    /** A freshly loaded EGL library on the given display (zero-filled otherwise). */
    constructor (display: nat)
      ensures eglDisplay == display && swapInterval == 0
    {
      eglDisplay := display;
      swapInterval := 0;
    }
  }

  /** The video device (`_this`): its EGL data, NULL until the library is loaded,
      and its GL configuration. */
  class VideoDevice {
    var egl: EglData?
    var glConfig: GlConfig
  }
}
