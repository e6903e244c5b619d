/** The two small platform decisions of the application: the creation flags
    passed to the rasterising helper's subprocess and the rendering DPI. */
module Platform {
  import opened Types

  /** CREATE_NO_WINDOW, the fallback when `subprocess` does not define it. */
  const CreateNoWindowDefault: int := 0x0800_0000

  /** `sys.platform.startswith('win')`. */
  predicate IsWindows(platform: string) {
    |platform| >= 3 && platform[..3] == "win"
  }

  /** Creation flags for the helper subprocess. `frozen` is the result of the
      bundle check; `createNoWindow` is `subprocess.CREATE_NO_WINDOW` when the
      module defines it. Console windows are hidden only in a frozen Windows build. */
  function CreationFlags(platform: string, frozen: bool, createNoWindow: Option<int>): (flags: int)
    ensures !IsWindows(platform) || !frozen ==> flags == 0
    ensures IsWindows(platform) && frozen && createNoWindow.Some? ==> flags == createNoWindow.value
    ensures IsWindows(platform) && frozen && createNoWindow.None? ==> flags == CreateNoWindowDefault
  {
    if IsWindows(platform) && frozen then
      match createNoWindow
      case Some(f) => f
      case None => CreateNoWindowDefault
    else 0
  }

  /** DPI used by the page renderer: `120 if max_w and max_w < 200 else 150`.
      A missing or zero width is falsy in Python and selects the higher DPI. */
  function RenderDpi(maxWidth: Option<int>): (dpi: nat)
    ensures dpi == 120 || dpi == 150
    ensures dpi == 120 <==> maxWidth.Some? && maxWidth.value != 0 && maxWidth.value < 200
  {
    match maxWidth
    case Some(w) => if w != 0 && w < 200 then 120 else 150
    case None => 150
  }
}
