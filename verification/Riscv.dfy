/**
 Virtual addresses of the Sv39 scheme as the kernel uses them (kernel/riscv.h:359-363).
 */
module Riscv {

  // One bit less than Sv39 allows, so that addresses need no sign extension.
  const MAXVA: nat := 0x40_0000_0000

  // In pages.
  const MAXVPN: nat := 0x400_0000
}
