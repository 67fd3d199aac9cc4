/** Register offsets and limits of the PCI-424. */
module Hw {
  import opened Pal

  // BAR1
  const PORT_CONF: u32 := 0x00
  const DMA_CTRL: u32 := 0x10
  const DMA_SIZE: u32 := 0x14
  const DMA_BASE: u32 := 0x18
  const FPGA_CTRL: u32 := 0x30_0008

  // BAR0
  const SYNC_STATUS: u32 := 0x70D0

  const CHANNELS := 98            // words in a frame
  const BUF_MAX := 0x40_0000      // bytes of DMA buffer
  const PERIOD_BYTES_MIN := 1024
  const PERIOD_BYTES_MAX := 0x1_0000
  const PERIODS_MIN := 2
  const PERIODS_MAX := 16
}
